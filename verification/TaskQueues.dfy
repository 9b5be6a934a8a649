/**
 mtask2's intrusive queues on the heap: the priority queue and the time queue thread the same tasks
 through two independent pairs of links.  The methods are proved against the value-level operations of
 WaitOrder and DeltaOrder.
 */
module TaskQueues {
  import opened Base
  import opened WaitOrder
  import opened DeltaOrder

  class Task {
    var priority: nat
    var queue: TaskQueue?
    var prev: Task?
    var next: Task?
    var inTimeQ: bool
    var timePrev: Task?
    var timeNext: Task?
    var ticks: nat

    constructor (priority: nat)
      ensures this.priority == priority && queue == null && !inTimeQ
    {
      this.priority := priority;
      queue, prev, next := null, null, null;
      inTimeQ, timePrev, timeNext, ticks := false, null, null, 0;
    }
  }

  /** Position `i` of a list of tasks, null outside it. */
  ghost function NodeAt(s: seq<Task>, i: int): Task? {
    if 0 <= i < |s| then s[i] else null
  }

  ghost function Elems<T>(s: seq<T>): set<T> {
    set i | 0 <= i < |s| :: s[i]
  }

  /** `i` is where mt_enqueue puts a task of this priority. */
  ghost predicate IsPlace(s: seq<Task>, priority: nat, i: nat)
    reads s`priority
  {
    && i <= |s|
    && (forall k {:trigger s[k].priority} :: 0 <= k < i ==> s[k].priority < priority)
    && (i < |s| ==> priority <= s[i].priority)
  }

  /** The value-level queue `q` lists these tasks with their priorities. */
  ghost predicate Describes(q: seq<Entry<Task>>, s: seq<Task>)
    reads s`priority
  {
    |q| == |s| && forall i {:trigger s[i].priority} {:trigger q[i]} :: 0 <= i < |s| ==>
      q[i].who == s[i] && q[i].prio == s[i].priority
  }

  class TaskQueue {
    var head: Task?
    var tail: Task?
    /** The tasks from `head` to `tail`. */
    ghost var nodes: seq<Task>

    ghost predicate Valid()
      reads this, nodes`prev, nodes`next, nodes`queue
    {
      && Distinct(nodes)
      && (|nodes| == 0 ==> head == null && tail == null)
      && (|nodes| > 0 ==>
            && head == nodes[0] && tail == nodes[|nodes|-1]
            && nodes[0].prev == null && nodes[|nodes|-1].next == null)
      && (forall i {:trigger nodes[i].prev} :: 0 < i < |nodes| ==> nodes[i].prev == nodes[i-1])
      && (forall i {:trigger nodes[i].next} :: 0 <= i < |nodes| - 1 ==> nodes[i].next == nodes[i+1])
      && (forall i {:trigger nodes[i].queue} :: 0 <= i < |nodes| ==> nodes[i].queue == this)
    }

    constructor ()
      ensures Valid() && nodes == []
    {
      head, tail := null, null;
      nodes := [];
    }

    /** The search loop of mt_enqueue. */
    method FindPlace(priority: nat) returns (ta: Task?, ghost i: nat)
      requires Valid()
      ensures IsPlace(nodes, priority, i) && ta == NodeAt(nodes, i)
    {
      ta, i := head, 0;
      while ta != null && priority > ta.priority
        invariant 0 <= i <= |nodes| && ta == NodeAt(nodes, i)
        invariant forall k {:trigger nodes[k].priority} :: 0 <= k < i ==> nodes[k].priority < priority
        decreases |nodes| - i
      {
        ta := ta.next;
        i := i + 1;
      }
    }

    /** The pointer surgery of mt_enqueue: `task` goes in front of `ta`, last when `ta` is null. */
    method Splice(task: Task, ta: Task?, ghost i: nat)
      requires Valid() && task !in nodes && i <= |nodes| && ta == NodeAt(nodes, i)
      modifies this, task`prev, task`next, task`queue, nodes`prev, nodes`next
      ensures Valid() && nodes == old(nodes)[..i] + [task] + old(nodes)[i..]
    {
      if ta != null {
        SpliceBefore(task, ta, i);
      } else {
        SpliceLast(task);
      }
    }

    method SpliceBefore(task: Task, ta: Task, ghost i: nat)
      requires Valid() && task !in nodes && i < |nodes| && ta == nodes[i]
      modifies this, task`prev, task`next, task`queue, nodes`prev, nodes`next
      ensures Valid() && nodes == old(nodes)[..i] + [task] + old(nodes)[i..]
    {
      task.prev := ta.prev;
      if ta.prev != null {
        ta.prev.next := task;
      } else {
        head := task;
      }
      ta.prev := task;
      task.next := ta;
      task.queue := this;
      nodes := nodes[..i] + [task] + nodes[i..];
    }

    method SpliceLast(task: Task)
      requires Valid() && task !in nodes
      modifies this, task`prev, task`next, task`queue, nodes`next
      ensures Valid() && nodes == old(nodes) + [task]
    {
      if tail != null {
        var last := tail;
        last.next, tail := task, task;
        task.prev := last;
        task.next := null;
      } else {
        head, tail := task, task;
        task.next, task.prev := null, null;
      }
      task.queue := this;
      nodes := nodes + [task];
    }

    /** mt_enqueue; `i` is the position found. */
    method Enqueue(task: Task) returns (ghost i: nat)
      requires Valid() && task.queue == null
      modifies this, task`prev, task`next, task`queue, nodes`prev, nodes`next
      ensures Valid() && old(IsPlace(nodes, task.priority, i))
      ensures nodes == old(nodes)[..i] + [task] + old(nodes)[i..]
    {
      var ta;
      ta, i := FindPlace(task.priority);
      Splice(task, ta, i);
    }

    /** The gap left by position `k` of `was` is closed. */
    lemma Closed(was: seq<Task>, k: nat)
      requires k < |was| && Distinct(was) && nodes == was[..k] + was[k+1..]
      requires head == NodeAt(was, if k == 0 then 1 else 0)
      requires tail == NodeAt(was, if k == |was| - 1 then k - 1 else |was| - 1)
      requires forall i {:trigger was[i].prev} :: 0 <= i < |was| && i != k ==>
                 was[i].prev == NodeAt(was, if i == k + 1 then k - 1 else i - 1)
      requires forall i {:trigger was[i].next} :: 0 <= i < |was| && i != k ==>
                 was[i].next == NodeAt(was, if i == k - 1 then k + 1 else i + 1)
      requires forall i {:trigger was[i].queue} :: 0 <= i < |was| && i != k ==> was[i].queue == this
      ensures Valid()
    {
      assert forall i {:trigger nodes[i]} :: 0 <= i < |nodes| ==> nodes[i] == was[if i < k then i else i + 1];
    }

    /** The pointer surgery of mt_dequeue. */
    method Unlink(task: Task, ghost k: nat)
      requires Valid() && k < |nodes| && nodes[k] == task
      modifies this, task`queue, nodes`prev, nodes`next
      ensures Valid() && nodes == old(nodes)[..k] + old(nodes)[k+1..]
      ensures task.queue == null && task.prev == null && task.next == null
    {
      ghost var was := nodes;
      assert k > 0 ==> was[k-1] != task;
      if task.prev != null {
        task.prev.next := task.next;
      } else {
        head := task.next;
      }
      if task.next != null {
        task.next.prev := task.prev;
      } else {
        tail := task.prev;
      }
      task.next, task.prev := null, null;
      task.queue := null;
      nodes := nodes[..k] + nodes[k+1..];
      Closed(was, k);
    }

    /** mt_getlast */
    method GetLast() returns (task: Task?)
      requires Valid()
      modifies this, nodes`prev, nodes`next, nodes`queue
      ensures Valid() && task == NodeAt(old(nodes), |old(nodes)| - 1)
      ensures nodes == if task == null then [] else old(nodes)[..|old(nodes)|-1]
      ensures task != null ==> task.queue == null && task.prev == null && task.next == null
    {
      task := tail;
      if task == null {
        return;
      }
      tail := task.prev;
      if tail != null {
        tail.next := null;
      } else {
        head := null;
      }
      task.prev, task.next := null, null;
      task.queue := null;
      nodes := nodes[..|nodes|-1];
    }
  }

  ghost function Home(task: Task): set<TaskQueue>
    reads task`queue
  {
    if task.queue == null then {} else {task.queue}
  }

  /** The tasks in the same queue. */
  ghost function Mates(task: Task): set<Task>
    reads task`queue, Home(task)
  {
    if task.queue == null then {} else Elems(task.queue.nodes)
  }

  /** mt_dequeue: takes the task out of whatever queue holds it, if any; `k` is where it was. */
  method Dequeue(task: Task) returns (ghost k: nat)
    requires task.queue != null ==> task.queue.Valid() && task in task.queue.nodes
    modifies Home(task), task`queue, Mates(task)`prev, Mates(task)`next
    ensures task.queue == null
    ensures old(task.queue) != null ==>
      && old(task.queue).Valid() && task.prev == null && task.next == null
      && k < |old(task.queue.nodes)| && old(task.queue.nodes)[k] == task
      && old(task.queue).nodes == old(task.queue.nodes)[..k] + old(task.queue.nodes)[k+1..]
  {
    var queue := task.queue;
    if queue == null {
      k := 0;
      return;
    }
    k :| 0 <= k < |queue.nodes| && queue.nodes[k] == task;
    queue.Unlink(task, k);
  }

  /** The differential queue `q` describes these tasks and their `ticks` fields. */
  ghost predicate Times(q: seq<Alarm<Task>>, s: seq<Task>)
    reads s`ticks
  {
    |q| == |s| && forall i {:trigger s[i].ticks} {:trigger q[i]} :: 0 <= i < |s| ==> q[i] == Alarm(s[i], s[i].ticks)
  }

  class TimeQueue {
    var head: Task?
    var tail: Task?
    ghost var nodes: seq<Task>

    ghost predicate Valid()
      reads this, nodes`timePrev, nodes`timeNext, nodes`inTimeQ
    {
      && Distinct(nodes)
      && (|nodes| == 0 ==> head == null && tail == null)
      && (|nodes| > 0 ==>
            && head == nodes[0] && tail == nodes[|nodes|-1]
            && nodes[0].timePrev == null && nodes[|nodes|-1].timeNext == null)
      && (forall i {:trigger nodes[i].timePrev} :: 0 < i < |nodes| ==> nodes[i].timePrev == nodes[i-1])
      && (forall i {:trigger nodes[i].timeNext} :: 0 <= i < |nodes| - 1 ==> nodes[i].timeNext == nodes[i+1])
      && (forall i {:trigger nodes[i].inTimeQ} :: 0 <= i < |nodes| ==> nodes[i].inTimeQ)
    }

    constructor ()
      ensures Valid() && nodes == []
    {
      head, tail := null, null;
      nodes := [];
    }

    /** The search loop of mt_enqueue_time; `left` is what remains of the delay at the place found. */
    method FindPlace(task: Task, ticks: nat, ghost q: seq<Alarm<Task>>)
      returns (ta: Task?, left: nat, ghost i: nat)
      requires Valid() && Times(q, nodes)
      ensures i <= |nodes| && ta == NodeAt(nodes, i)
      ensures ta != null ==> left <= ta.ticks
      ensures InsertAlarm(q, Alarm(task, ticks)) == Placed(q, i, Alarm(task, left))
    {
      ta, left, i := head, ticks, 0;
      while ta != null && left > ta.ticks
        invariant 0 <= i <= |nodes| && ta == NodeAt(nodes, i)
        invariant ticks == left + Before(q, i) && (i > 0 ==> left > 0)
        decreases |nodes| - i
      {
        left := left - ta.ticks;
        ta := ta.timeNext;
        i := i + 1;
      }
      InsertAlarmAt(q, i, Alarm(task, left));
    }

    /** The pointer surgery of mt_enqueue_time. */
    method Splice(task: Task, ta: Task?, ghost i: nat)
      requires Valid() && task !in nodes && i <= |nodes| && ta == NodeAt(nodes, i)
      modifies this, task`timePrev, task`timeNext, task`inTimeQ, nodes`timePrev, nodes`timeNext
      ensures Valid() && nodes == old(nodes)[..i] + [task] + old(nodes)[i..]
    {
      if ta != null {
        SpliceBefore(task, ta, i);
      } else {
        SpliceLast(task);
      }
    }

    method SpliceBefore(task: Task, ta: Task, ghost i: nat)
      requires Valid() && task !in nodes && i < |nodes| && ta == nodes[i]
      modifies this, task`timePrev, task`timeNext, task`inTimeQ, nodes`timePrev, nodes`timeNext
      ensures Valid() && nodes == old(nodes)[..i] + [task] + old(nodes)[i..]
    {
      task.timePrev := ta.timePrev;
      if ta.timePrev != null {
        ta.timePrev.timeNext := task;
      } else {
        head := task;
      }
      ta.timePrev := task;
      task.timeNext := ta;
      task.inTimeQ := true;
      nodes := nodes[..i] + [task] + nodes[i..];
    }

    method SpliceLast(task: Task)
      requires Valid() && task !in nodes
      modifies this, task`timePrev, task`timeNext, task`inTimeQ, nodes`timeNext
      ensures Valid() && nodes == old(nodes) + [task]
    {
      if tail != null {
        var last := tail;
        last.timeNext, tail := task, task;
        task.timePrev := last;
        task.timeNext := null;
      } else {
        head, tail := task, task;
        task.timeNext, task.timePrev := null, null;
      }
      task.inTimeQ := true;
      nodes := nodes + [task];
    }

    /** The tick arithmetic of mt_enqueue_time: the newcomer takes `left` from its successor. */
    method Share(task: Task, left: nat, ghost was: seq<Task>, ghost i: nat, ghost q: seq<Alarm<Task>>)
      requires i <= |was| && Distinct(was) && task !in was && Times(q, was)
      requires i < |was| ==> left <= was[i].ticks
      requires task.timeNext == NodeAt(was, i)
      modifies task`ticks, was`ticks
      ensures Times(Placed(q, i, Alarm(task, left)), was[..i] + [task] + was[i..])
    {
      if task.timeNext != null {
        task.timeNext.ticks := task.timeNext.ticks - left;
        assert forall k {:trigger was[k].ticks} :: 0 <= k < |was| && k != i ==> q[k] == Alarm(was[k], was[k].ticks);
        assert was[i].ticks == q[i].ticks - left;
      }
      task.ticks := left;
    }

    lemma AtPlace(s: seq<Task>, task: Task, i: nat)
      requires i <= |s|
      ensures var r := s[..i] + [task] + s[i..]; |r| == |s| + 1 && r[i] == task && (i < |s| ==> r[i+1] == s[i])
    {
    }

    /** mt_enqueue_time */
    method EnqueueTime(task: Task, ticks: nat, ghost q: seq<Alarm<Task>>) returns (ghost i: nat)
      requires Valid() && !task.inTimeQ && Times(q, nodes)
      modifies this, task`timePrev, task`timeNext, task`inTimeQ, task`ticks
      modifies nodes`timePrev, nodes`timeNext, nodes`ticks
      ensures Valid() && Times(InsertAlarm(q, Alarm(task, ticks)), nodes)
      ensures i <= |old(nodes)| && nodes == old(nodes)[..i] + [task] + old(nodes)[i..]
    {
      var ta, left;
      ta, left, i := FindPlace(task, ticks, q);
      ghost var was := nodes;
      Splice(task, ta, i);
      AtPlace(was, task, i);
      Share(task, left, was, i, q);
    }

    /** The gap left by position `k` of `was` is closed. */
    lemma Closed(was: seq<Task>, k: nat)
      requires k < |was| && Distinct(was) && nodes == was[..k] + was[k+1..]
      requires head == NodeAt(was, if k == 0 then 1 else 0)
      requires tail == NodeAt(was, if k == |was| - 1 then k - 1 else |was| - 1)
      requires forall i {:trigger was[i].timePrev} :: 0 <= i < |was| && i != k ==>
                 was[i].timePrev == NodeAt(was, if i == k + 1 then k - 1 else i - 1)
      requires forall i {:trigger was[i].timeNext} :: 0 <= i < |was| && i != k ==>
                 was[i].timeNext == NodeAt(was, if i == k - 1 then k + 1 else i + 1)
      requires forall i {:trigger was[i].inTimeQ} :: 0 <= i < |was| && i != k ==> was[i].inTimeQ
      ensures Valid()
    {
      assert forall i {:trigger nodes[i]} :: 0 <= i < |nodes| ==> nodes[i] == was[if i < k then i else i + 1];
    }

    /** The pointer surgery of mt_dequeue_time. */
    method Unlink(task: Task, ghost k: nat)
      requires Valid() && k < |nodes| && nodes[k] == task
      modifies this, task`inTimeQ, nodes`timePrev, nodes`timeNext
      ensures Valid() && nodes == old(nodes)[..k] + old(nodes)[k+1..]
      ensures !task.inTimeQ && task.timePrev == null && task.timeNext == null
    {
      ghost var was := nodes;
      assert k > 0 ==> was[k-1] != task;
      if task.timePrev != null {
        task.timePrev.timeNext := task.timeNext;
      } else {
        head := task.timeNext;
      }
      if task.timeNext != null {
        task.timeNext.timePrev := task.timePrev;
      } else {
        tail := task.timePrev;
      }
      task.timeNext, task.timePrev := null, null;
      task.inTimeQ := false;
      nodes := nodes[..k] + nodes[k+1..];
      Closed(was, k);
    }

    lemma RemovedAt(q: seq<Alarm<Task>>, s: seq<Task>, k: nat)
      requires Times(q, s) && Distinct(s) && k < |s|
      ensures q[k] == Alarm(s[k], s[k].ticks)
      ensures RemoveAlarm(q, s[k]) ==
        if k + 1 == |q| then q[..k]
        else q[..k] + [Alarm(q[k+1].who, q[k+1].ticks + q[k].ticks)] + q[k+2..]
    {
      assert forall i {:trigger q[i]} :: 0 <= i < |q| ==> q[i] == Alarm(s[i], s[i].ticks);
      RemoveAlarmAt(q, k);
    }

    lemma TakesOver(q: seq<Alarm<Task>>, s: seq<Task>, k: nat)
      requires k + 1 < |q| == |s|
      requires forall i {:trigger q[i]} :: 0 <= i < |q| && i != k && i != k + 1 ==> q[i] == Alarm(s[i], s[i].ticks)
      requires q[k+1].who == s[k+1] && s[k+1].ticks == q[k+1].ticks + q[k].ticks
      ensures Times(q[..k] + [Alarm(q[k+1].who, q[k+1].ticks + q[k].ticks)] + q[k+2..], s[..k] + s[k+1..])
    {
    }

    /** The tick arithmetic of mt_dequeue_time: the successor takes over the difference. */
    method Refund(task: Task, ghost was: seq<Task>, ghost k: nat, ghost q: seq<Alarm<Task>>)
      requires k < |was| && was[k] == task && Distinct(was) && Times(q, was)
      requires task.timeNext == NodeAt(was, k + 1)
      modifies was`ticks
      ensures Times(RemoveAlarm(q, task), was[..k] + was[k+1..])
    {
      RemovedAt(q, was, k);
      if task.timeNext != null {
        assert was[k+1] != task;
        task.timeNext.ticks := task.timeNext.ticks + task.ticks;
        TakesOver(q, was, k);
      }
    }

    /** mt_dequeue_time */
    method DequeueTime(task: Task, ghost q: seq<Alarm<Task>>) returns (ghost k: nat)
      requires Valid() && Times(q, nodes) && (task.inTimeQ ==> task in nodes)
      modifies this, task`timePrev, task`timeNext, task`inTimeQ
      modifies nodes`timePrev, nodes`timeNext, nodes`ticks
      ensures Valid() && !task.inTimeQ
      ensures old(task.inTimeQ) ==>
        && Times(RemoveAlarm(q, task), nodes)
        && k < |old(nodes)| && old(nodes)[k] == task && nodes == old(nodes)[..k] + old(nodes)[k+1..]
      ensures !old(task.inTimeQ) ==> nodes == old(nodes) && Times(q, nodes)
    {
      if !task.inTimeQ {
        k := 0;
        return;
      }
      k :| 0 <= k < |nodes| && nodes[k] == task;
      Refund(task, nodes, k, q);
      Unlink(task, k);
    }

    /** mt_getfirst_time */
    method GetFirstTime() returns (task: Task?)
      requires Valid()
      modifies this, nodes`timePrev, nodes`timeNext, nodes`inTimeQ
      ensures Valid() && task == NodeAt(old(nodes), 0)
      ensures nodes == if task == null then [] else old(nodes)[1..]
      ensures task != null ==> !task.inTimeQ && task.timePrev == null && task.timeNext == null
    {
      task := head;
      if task == null {
        return;
      }
      head := task.timeNext;
      if head != null {
        head.timePrev := null;
      } else {
        tail := null;
      }
      task.timePrev, task.timeNext := null, null;
      task.inTimeQ := false;
      nodes := nodes[1..];
    }

    /** One alarm at zero leaves. */
    method WakeFirst(ghost q: seq<Alarm<Task>>) returns (first: Task)
      requires Valid() && Times(q, nodes) && q != []
      modifies this, nodes`timePrev, nodes`timeNext, nodes`inTimeQ
      ensures Valid() && first == old(nodes)[0] && nodes == old(nodes)[1..]
      ensures Times(q[1..], nodes) && q[0].who == first
    {
      TimesTail(q, nodes);
      first := GetFirstTime();
    }

    /** The waking loop of clockint: every alarm at zero leaves the queue; `rest` is what stays. */
    method WakeDue(ghost q: seq<Alarm<Task>>) returns (woken: seq<Task>, ghost n: nat, ghost rest: seq<Alarm<Task>>)
      requires Valid() && Times(q, nodes)
      modifies this, nodes`timePrev, nodes`timeNext, nodes`inTimeQ
      ensures Valid() && Times(rest, nodes)
      ensures n <= |old(nodes)| && woken == old(nodes)[..n] && nodes == old(nodes)[n..]
      ensures woken == Woken(q) && Clock(q) == Clock(rest)
      ensures rest != [] ==> rest[0].ticks > 0
    {
      woken, n, rest := [], 0, q;
      var task := head;
      while task != null && task.ticks == 0
        invariant Valid() && Times(rest, nodes) && task == NodeAt(nodes, 0)
        invariant n <= |old(nodes)| && woken == old(nodes)[..n] && nodes == old(nodes)[n..]
        invariant Woken(q) == woken + Woken(rest) && Clock(q) == Clock(rest)
        decreases |nodes|
      {
        OneFurther(old(nodes), n);
        TimesTail(rest, nodes);
        MoveOver(woken, rest[0].who, Woken(rest[1..]));
        var first := WakeFirst(rest);
        woken, n, rest := woken + [first], n + 1, rest[1..];
        task := head;
      }
      assert rest != [] ==> rest[0] == Alarm(nodes[0], nodes[0].ticks);
    }

    lemma OneFurther(s: seq<Task>, n: nat)
      requires n < |s|
      ensures s[n..][1..] == s[n+1..] && s[..n+1] == s[..n] + [s[n..][0]]
    {
    }

    lemma MoveOver(s: seq<Task>, x: Task, tail: seq<Task>)
      ensures s + ([x] + tail) == s + [x] + tail
    {
    }

    lemma Joins(s: seq<Task>, n: nat)
      requires n <= |s|
      ensures s == s[..n] + s[n..]
    {
    }

    /** The time-queue part of clockint: the tasks woken, in order. */
    method ClockInterrupt(ghost q: seq<Alarm<Task>>) returns (woken: seq<Task>)
      requires Valid() && Times(q, nodes)
      modifies this, nodes`timePrev, nodes`timeNext, nodes`inTimeQ, nodes`ticks
      ensures Valid() && woken == Woken(q) && Times(Clock(q), nodes)
      ensures old(nodes) == woken + nodes
    {
      ghost var was, n, rest := nodes, 0, q;
      woken, n, rest := WakeDue(q);
      Joins(was, n);
      Countdown(rest);
    }

    lemma TimesTail(q: seq<Alarm<Task>>, s: seq<Task>)
      requires Times(q, s) && s != []
      ensures q[0] == Alarm(s[0], s[0].ticks) && Times(q[1..], s[1..])
    {
    }

    /** The last step of clockint: one tick off the first alarm that is still running. */
    method Countdown(ghost q: seq<Alarm<Task>>)
      requires Valid() && Times(q, nodes)
      requires q != [] ==> q[0].ticks > 0
      modifies nodes`ticks
      ensures Valid() && Times(Clock(q), nodes)
    {
      if head != null {
        TimesTail(q, nodes);
        head.ticks := head.ticks - 1;
        assert forall i {:trigger nodes[i].ticks} :: 0 < i < |nodes| ==> q[i] == Alarm(nodes[i], nodes[i].ticks);
      }
    }
  }

  // ----- what the pointer surgery means for the order of waiting -----

  /** The position found on the heap is the one the value-level insertion uses. */
  lemma EnqueueIsInsert(q: seq<Entry<Task>>, s: seq<Task>, task: Task, i: nat, now: nat)
    requires Describes(q, s) && IsPlace(s, task.priority, i)
    ensures Describes(Insert(q, Entry(task, task.priority, now)), s[..i] + [task] + s[i..])
  {
    var p := Place(q, task.priority);
    assert p < |q| ==> q[p].prio == s[p].priority;
    assert i < |q| ==> q[i].prio == s[i].priority;
    assert i == p;
  }

  lemma DequeueIsWithout(q: seq<Entry<Task>>, s: seq<Task>, k: nat)
    requires Describes(q, s) && OnceEach(q) && k < |s|
    ensures Describes(Without(q, s[k]), s[..k] + s[k+1..])
  {
    assert q[k].who == s[k];
    WithoutAt(q, k);
  }

  lemma GetLastIsFront(q: seq<Entry<Task>>, s: seq<Task>)
    requires Describes(q, s) && s != []
    ensures Last(q).who == s[|s|-1] && Describes(Front(q), s[..|s|-1])
  {
  }
}
