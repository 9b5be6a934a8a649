/**
 mtask2's mutex, monitor and condition objects.  Each method performs the statements one caller executes until it
 returns or falls asleep, and is proved to be those steps of the machine in Mutexes, taken without interruption.
 */
module LockObjects {
  import opened Base
  import opened WaitOrder
  import opened Semaphores
  import opened Mutexes

  /** How far a call gets: it returns, it sleeps in the queue of the semaphore or condition, or it is a fatal error. */
  datatype Reply = Returned(ok: bool) | Sleeping | Panic

  /** `n` statements of `t` in a row. */
  function Alone(s: State, t: Tid, n: nat): State {
    if n == 0 then s else Step(Alone(s, t, n - 1), Advance(t))
  }

  /** A task outside the object, with what the machine's invariant says about it. */
  ghost predicate CanCall(s: State, t: Tid) {
    ValidSem(s.sem) && TaskInv(s, t) && PcOf(s, t).Outside?
  }

  class Mutex {
    const sem: Semaphore
    var owner: Option<Tid>
    var useCount: int

    ghost predicate Shows(s: State)
      reads this, sem
    {
      s.recursive && !s.panicked && s.sem == sem.State() && s.owner == owner && s.useCount == useCount
    }

    /** CreateMutex: the memory comes zeroed. */
    constructor ()
      ensures Shows(Init(true)) && fresh(sem)
    {
      sem := new Semaphore(1);
      owner, useCount := None, 0;
    }

    /** EnterMutexTimed */
    method EnterMutexTimed(t: Tid, prio: nat, limit: Limit, ghost s: State)
      returns (r: Reply, ghost s': State, ghost n: nat)
      requires Shows(s) && CanCall(s, t)
      modifies this, sem
      ensures s' == Alone(Step(s, Enter(t, prio, limit)), t, n) && Shows(s')
      ensures match r
        case Returned(true) => PcOf(s', t).Outside? && DepthOf(s', t) == DepthOf(s, t) + 1 && owner == Some(t)
        case Returned(false) => limit.Never? && PcOf(s', t).Outside? && DepthOf(s', t) == DepthOf(s, t)
        case Sleeping => !limit.Never? && PcOf(s', t) == Queued(prio, limit)
        case Panic => false
      ensures r == Returned(true) <==> s.owner == Some(t) || s.sem.value > 0
    {
      ghost var start := Step(s, Enter(t, prio, limit));
      s', n := Step(start, Advance(t)), 1;
      assert s' == Alone(start, t, 1);
      if owner == Some(t) {
        useCount := useCount + 1;
        s', n := Step(s', Advance(t)), 2;
        return Returned(true), s', n;
      }
      s', n := Step(s', Advance(t)), 2;
      assert s' == Alone(start, t, 2);
      if s.sem.value == 0 && !limit.Never? {
        InsertKeepsValid(s.sem.queue, Entry(t, prio, s.sem.clock), s.sem.clock);
      }
      var o := sem.WaitSemTimed(t, prio, if limit.Never? then 0 else 1);
      if o == Success {
        s' := Given(t, s');
        n := 4;
        assert Alone(start, t, 4) == Step(Step(Alone(start, t, 2), Advance(t)), Advance(t));
        r := Returned(true);
      } else {
        r := if o == Failure then Returned(false) else Sleeping;
      }
    }

    /** The statements after a successful wait. */
    method Given(t: Tid, ghost s: State) returns (ghost s': State)
      requires Shows(s) && PcOf(s, t).Holding? && DepthOf(s, t) == 0
      modifies this
      ensures s' == Step(Step(s, Advance(t)), Advance(t)) && Shows(s')
      ensures PcOf(s', t).Outside? && DepthOf(s', t) == 1 && owner == Some(t) && useCount == 1
    {
      owner := Some(t);
      useCount := 1;
      s' := Step(Step(s, Advance(t)), Advance(t));
    }

    /** LeaveMutex: a fatal error unless the caller is inside. */
    method LeaveMutex(t: Tid, ghost s: State) returns (r: Reply, woken: Option<Tid>, ghost s': State, ghost n: nat)
      requires Shows(s) && CanCall(s, t)
      modifies this, sem
      ensures s' == Alone(Step(s, Leave(t)), t, n)
      ensures r == Panic <==> DepthOf(s, t) == 0
      ensures r == Panic ==> s'.panicked
      ensures r != Panic ==> Shows(s') && PcOf(s', t).Outside? && DepthOf(s', t) == DepthOf(s, t) - 1
      ensures woken.Some? <==> DepthOf(s, t) == 1 && s.sem.queue != []
      ensures woken.Some? ==> woken.value == Last(s.sem.queue).who && PcOf(s', woken.value).Holding?
    {
      woken := None;
      ghost var start := Step(s, Leave(t));
      s', n := Step(start, Advance(t)), 1;
      assert s' == Alone(start, t, 1);
      if owner != Some(t) {
        return Panic, None, s', n;
      }
      useCount := useCount - 1;
      s', n := Step(s', Advance(t)), 2;
      assert s' == Alone(start, t, 2);
      if useCount == 0 {
        owner := None;
        s' := Step(s', Advance(t));
        assert s' == Alone(start, t, 3);
        LastIsSleeping(s, t);
        woken := sem.SignalSem();
        s', n := Step(s', Advance(t)), 4;
      }
      r := Returned(true);
    }
  }

  class Monitor {
    const sem: Semaphore
    var owner: Option<Tid>

    ghost predicate Shows(s: State)
      reads this, sem
    {
      !s.recursive && !s.panicked && s.sem == sem.State() && s.owner == owner
    }

    /** CreateMonitor */
    constructor ()
      ensures Shows(Init(false)) && fresh(sem)
    {
      sem := new Semaphore(1);
      owner := None;
    }

    /** EnterMonitorTimed: a fatal error for the task that is inside already. */
    method EnterMonitorTimed(t: Tid, prio: nat, limit: Limit, ghost s: State)
      returns (r: Reply, ghost s': State, ghost n: nat)
      requires Shows(s) && CanCall(s, t)
      modifies this, sem
      ensures s' == Alone(Step(s, Enter(t, prio, limit)), t, n)
      ensures r == Panic <==> DepthOf(s, t) > 0
      ensures if r == Panic then s'.panicked else Shows(s')
      ensures match r
        case Returned(true) => PcOf(s', t).Outside? && DepthOf(s', t) == 1 && owner == Some(t)
        case Returned(false) => limit.Never? && PcOf(s', t).Outside? && DepthOf(s', t) == 0
        case Sleeping => !limit.Never? && PcOf(s', t) == Queued(prio, limit)
        case Panic => true
      ensures r == Returned(true) <==> DepthOf(s, t) == 0 && s.sem.value > 0
    {
      ghost var start := Step(s, Enter(t, prio, limit));
      s', n := Step(start, Advance(t)), 1;
      assert s' == Alone(start, t, 1);
      if owner == Some(t) {
        return Panic, s', n;
      }
      s', n := Step(s', Advance(t)), 2;
      assert s' == Alone(start, t, 2);
      if s.sem.value == 0 && !limit.Never? {
        InsertKeepsValid(s.sem.queue, Entry(t, prio, s.sem.clock), s.sem.clock);
      }
      var o := sem.WaitSemTimed(t, prio, if limit.Never? then 0 else 1);
      if o == Success {
        owner := Some(t);
        s', n := Step(s', Advance(t)), 3;
        r := Returned(true);
      } else {
        r := if o == Failure then Returned(false) else Sleeping;
      }
    }

    /** LeaveMonitor: a fatal error unless the caller is inside. */
    method LeaveMonitor(t: Tid, ghost s: State) returns (r: Reply, woken: Option<Tid>, ghost s': State, ghost n: nat)
      requires Shows(s) && CanCall(s, t)
      modifies this, sem
      ensures s' == Alone(Step(s, Leave(t)), t, n)
      ensures r == Panic <==> DepthOf(s, t) == 0
      ensures if r == Panic then s'.panicked else Shows(s') && CanCall(s', t) && DepthOf(s', t) == 0
      ensures woken.Some? <==> DepthOf(s, t) > 0 && s.sem.queue != []
      ensures woken.Some? ==> woken.value == Last(s.sem.queue).who && PcOf(s', woken.value).Holding?
    {
      woken := None;
      ghost var start := Step(s, Leave(t));
      s', n := Step(start, Advance(t)), 1;
      assert s' == Alone(start, t, 1);
      if owner != Some(t) {
        return Panic, None, s', n;
      }
      owner := None;
      s', n := Step(s', Advance(t)), 2;
      assert s' == Alone(start, t, 2);
      LastIsSleeping(s, t);
      if s.sem.queue != [] {
        FrontKeepsValid(s.sem.queue, s.sem.clock);
      }
      woken := sem.SignalSem();
      s', n := Step(s', Advance(t)), 3;
      r := Returned(true);
    }
  }

  class Condition {
    const monitor: Monitor
    var queue: seq<Entry<Tid>>
    var clock: nat

    ghost predicate Valid()
      reads this
    {
      WaitOrder.Valid(queue, clock)
    }

    constructor (monitor: Monitor)
      ensures Valid() && queue == [] && this.monitor == monitor
    {
      this.monitor, queue, clock := monitor, [], 0;
    }

    /**
     WaitConditionTimed until the caller sleeps in the condition's queue or, unable to wait, is back inside or asleep
     at the monitor's gate.  Leaving the monitor and joining the queue are one atomic stretch.  The answer is false
     when the caller is back: it was not woken by a signal.
     */
    method WaitConditionTimed(t: Tid, prio: nat, limit: Limit, ghost s: State)
      returns (r: Reply, ghost left: State, ghost n: nat, ghost s': State, ghost m: nat)
      requires Valid() && t !in Names(queue) && monitor.Shows(s) && CanCall(s, t)
      modifies this, monitor, monitor.sem
      ensures Valid() && (r == Panic <==> DepthOf(s, t) == 0)
      ensures r != Panic ==> left == Alone(Step(s, Leave(t)), t, n) && PcOf(left, t).Outside? && monitor.Shows(s')
      ensures r != Panic ==> s' == if limit.Never? then Alone(Step(left, Enter(t, prio, Forever)), t, m) else left
      ensures queue ==
        if r != Panic && !limit.Never? then Insert(old(queue), Entry(t, prio, old(clock))) else old(queue)
      ensures r != Returned(true)
      ensures r == Returned(false) ==> limit.Never? && DepthOf(s', t) == 1 && monitor.owner == Some(t)
      ensures r == Sleeping && limit.Never? ==> PcOf(s', t) == Queued(prio, Forever)
    {
      left, n, s', m := s, 0, s, 0;
      if monitor.owner != Some(t) {
        r := Panic;
        return;
      }
      var woken;
      r, woken, left, n := monitor.LeaveMonitor(t, s);
      if limit.Never? {
        r, s', m := BackFromWait(t, prio, false, left);
      } else {
        InsertKeepsValid(queue, Entry(t, prio, clock), clock);
        queue, clock := Insert(queue, Entry(t, prio, clock)), clock + 1;
        r, s' := Sleeping, left;
      }
    }

    /** The end of WaitConditionTimed: whoever has waited enters the monitor again, without a limit. */
    method BackFromWait(t: Tid, prio: nat, success: bool, ghost s: State)
      returns (r: Reply, ghost s': State, ghost n: nat)
      requires monitor.Shows(s) && CanCall(s, t) && DepthOf(s, t) == 0
      modifies monitor, monitor.sem
      ensures s' == Alone(Step(s, Enter(t, prio, Forever)), t, n) && monitor.Shows(s')
      ensures r == Returned(success) || r == Sleeping
      ensures r.Returned? ==> PcOf(s', t).Outside? && DepthOf(s', t) == 1 && monitor.owner == Some(t)
      ensures r == Sleeping ==> PcOf(s', t) == Queued(prio, Forever)
    {
      r, s', n := monitor.EnterMonitorTimed(t, prio, Forever, s);
      if r == Returned(true) {
        r := Returned(success);
      }
    }

    /** SignalCondition: wakes the most urgent waiter, if there is one. */
    method SignalCondition(t: Tid) returns (r: Reply, woken: Option<Tid>)
      requires Valid()
      modifies this`queue
      ensures Valid()
      ensures r == if monitor.owner == Some(t) then Returned(old(queue) != []) else Panic
      ensures woken == if r == Returned(true) then Some(Last(old(queue)).who) else None
      ensures queue == if r == Returned(true) then Front(old(queue)) else old(queue)
    {
      woken := None;
      if monitor.owner != Some(t) {
        return Panic, None;
      }
      r := Returned(queue != []);
      if queue != [] {
        FrontKeepsValid(queue, clock);
        woken := Some(queue[|queue|-1].who);
        queue := queue[..|queue|-1];
      }
    }

    /** BroadcastCondition: wakes every waiter, most urgent first. */
    method BroadcastCondition(t: Tid) returns (r: Reply, woken: seq<Tid>)
      requires Valid()
      modifies this`queue
      ensures Valid() && (r == Panic <==> monitor.owner != Some(t))
      ensures r == Panic ==> queue == old(queue) && woken == []
      ensures r != Panic ==> queue == [] && |woken| == |old(queue)|
      ensures r != Panic ==> forall i :: 0 <= i < |woken| ==> woken[i] == old(queue)[|woken|-1-i].who
    {
      woken := [];
      if monitor.owner != Some(t) {
        return Panic, [];
      }
      ghost var was := queue;
      while queue != []
        invariant |queue| + |woken| == |was| && queue == was[..|queue|]
        invariant forall i :: 0 <= i < |woken| ==> woken[i] == was[|was|-1-i].who
        decreases |queue|
      {
        woken := woken + [queue[|queue|-1].who];
        queue := queue[..|queue|-1];
      }
      r := Returned(true);
    }
  }

  /** The waiter that a signal takes is not the caller. */
  lemma LastIsSleeping(s: State, t: Tid)
    requires CanCall(s, t)
    ensures s.sem.queue != [] ==> Last(s.sem.queue).who in Names(s.sem.queue) && Last(s.sem.queue).who != t
  {
    if s.sem.queue != [] {
      assert Last(s.sem.queue).who in Names(s.sem.queue);
    }
  }
}
