/**
 What a call on mtask2's pipe does for its caller: how much each visit to the monitor moves, what the call returns,
 and that a visit taken alone is get_data or put_data.
 */
module PipeCalls {
  import opened Base
  import opened WaitOrder
  import opened Locks
  import opened Rings
  import opened Pipes
  import Mutexes

  // ----- how much a visit to the monitor moves -----

  /** What one visit takes is all that is still wanted, or all there is: the pipe is left empty, or full. */
  ghost predicate TakesAll(s: Pipe, t: Tid) {
    var k := TaskOf(s, t);
    k.Busy? ==>
      && (k.phase.Copy? || k.phase.Count? ==>
            k.phase.n == k.call.want - k.call.done
            || k.phase.n == if k.call.side.Get? then s.avail else s.size - s.avail)
      && (k.phase.AtSignal? || (k.phase.AtLeave? && k.phase.n > 0) ==>
            k.phase.n == k.call.want - k.call.done
            || s.avail == if k.call.side.Get? then 0 else s.size)
  }

  /** A get that is content with what there is has made no visit before this one. */
  predicate OneVisit(k: Task) {
    k.Busy? && !k.call.all && !k.phase.AtUnlock? ==> k.call.done == 0
  }

  /** Calls without patience do not sleep, on a condition or at a mutex. */
  ghost predicate Patient(s: Pipe, t: Tid) {
    var k := TaskOf(s, t);
    k.Busy? && k.call.limit.Never? ==>
      !k.phase.Asleep? && (k.phase.AtMutex? ==> Mut(s, k.call.side).holder == Some(t))
  }

  function AfterTest(s: Pipe, c: Call): Phase
    requires c.done <= c.want && s.avail <= s.size
  {
    if !Stuck(s, c.side) then Copy(Take(s, c), 0) else if c.limit.Never? then Reenter(false) else Asleep
  }

  /** What becomes of the task that executes a statement. */
  lemma OwnTask(s: Pipe, t: Tid, p: Phase, c: Call)
    requires TaskOf(s, t) == Busy(p, c) && Safe(s, p, c) && !p.AtSignal? && !p.Asleep?
    ensures var k := TaskOf(Do(s, t, p, c), t);
      match p
      case AtMutex => k == Busy(AtMonitor, c)
      case AtMonitor => k == Busy(Test, c)
      case Test => k == Busy(AfterTest(s, c), c)
      case Awake(ok) => k == Busy(Reenter(ok), c)
      case Reenter(ok) => k == Busy(if ok then Copy(Take(s, c), 0) else AtLeave(0), c)
      case Copy(n, i) =>
        k.Busy? && k.phase == (if i < n then Copy(n, i + 1) else Count(n)) && k.call == c.(data := k.call.data)
      case Count(n) => k == Busy(AtSignal(n), c)
      case AtLeave(n) => k == Busy(Loop(n), c)
      case Loop(n) => true
      case AtUnlock => k.Idle?
      case _ => true
  {
    match p
    case Test => OwnTest(s, t, c);
    case Copy(n, i) => OwnCopy(s, t, c, n, i);
    case _ =>
  }

  lemma OwnTest(s: Pipe, t: Tid, c: Call)
    requires c.done <= c.want && s.avail <= s.size
    ensures TaskOf(TestStep(s, t, c), t) == Busy(AfterTest(s, c), c)
  {
  }

  lemma OwnCopy(s: Pipe, t: Tid, c: Call, n: nat, i: nat)
    requires Safe(s, Copy(n, i), c)
    ensures var k := TaskOf(CopyStep(s, t, c, n, i), t);
      k.Busy? && k.phase == (if i < n then Copy(n, i + 1) else Count(n)) && k.call == c.(data := k.call.data)
  {
  }

  lemma OwnLoop(s: Pipe, t: Tid, c: Call, n: nat)
    ensures TaskOf(LoopStep(s, t, c, n), t) ==
      if c.all && n > 0 && c.done + n < c.want then Busy(AtMonitor, c.(done := c.done + n))
      else if Serial(s, c.side) then Busy(AtUnlock, c.(done := c.done + n))
      else Idle
  {
  }

  /** A signal moves its own task on and may wake one that sleeps. */
  lemma SignalTasks(s: Pipe, t: Tid, c: Call, n: nat, u: Tid)
    requires TaskOf(s, t) == Busy(AtSignal(n), c)
    requires var q := Cond(s, Other(c.side)); q != [] ==> Sleeping(TaskOf(s, Last(q).who), Other(c.side))
    ensures var s' := SignalStep(s, t, c, n);
      && s'.avail == s.avail && s'.size == s.size
      && (u == t ==> TaskOf(s', u) == Busy(AtLeave(n), c))
      && (u != t ==>
            TaskOf(s', u) == TaskOf(s, u)
            || (TaskOf(s, u).Busy? && TaskOf(s, u).phase.Asleep?
                && TaskOf(s', u) == Busy(Awake(true), TaskOf(s, u).call)))
  {
  }

  /** The task a signal wakes is asleep on the condition of the other side. */
  lemma WokenSleeps(s: Pipe, side: Side)
    requires CondInv(s, side)
    ensures Cond(s, side) != [] ==> Sleeping(TaskOf(s, Last(Cond(s, side)).who), side)
  {
    var q := Cond(s, side);
    assert q != [] ==> Last(q).who in Names(q);
  }

  /** What an action leaves of another task: all, unless it wakes it. */
  lemma OtherTask(s: Pipe, a: Action, u: Tid)
    requires Inv(s) && Enabled(s, a) && u != a.t
    ensures TaskOf(Step(s, a), u) == TaskOf(s, u)
      || (TaskOf(s, u).Busy? && TaskOf(s, u).phase.Asleep?
          && TaskOf(Step(s, a), u) == Busy(Awake(true), TaskOf(s, u).call))
  {
    if a.Advance? {
      var p, c := TaskOf(s, a.t).phase, TaskOf(s, a.t).call;
      assert CallInv(s, a.t);
      AdvanceIsSafe(s, a.t);
      if p.AtSignal? {
        WokenSleeps(s, Other(c.side));
        SignalTasks(s, a.t, c, p.n, u);
      } else if !p.Count? {
        OthersStay(s, a.t, u);
      }
    }
  }

  /** Only a count changes `avail`. */
  lemma AvailStays(s: Pipe, a: Action)
    requires Inv(s) && Enabled(s, a) && !(a.Advance? && TaskOf(s, a.t).phase.Count?)
    ensures Step(s, a).avail == s.avail && Step(s, a).size == s.size
  {
    match a
    case Begin(t, c) =>
    case TimeOut(t) =>
    case Prioritize(t, prio) => PriorityFrame(s, t, prio, t);
    case Advance(t) =>
      var p, c := TaskOf(s, t).phase, TaskOf(s, t).call;
      assert CallInv(s, t);
      AdvanceIsSafe(s, t);
      if p.AtSignal? {
        WokenSleeps(s, Other(c.side));
        SignalTasks(s, t, c, p.n, t);
      } else {
        var u: Tid := t + 1;
        OthersStay(s, t, u);
      }
  }

  lemma StepTakesAll(s: Pipe, a: Action, u: Tid)
    requires Inv(s) && Enabled(s, a) && TakesAll(s, u)
    ensures TakesAll(Step(s, a), u)
  {
    if u == a.t {
      OwnTakesAll(s, a);
    } else if a.Advance? && TaskOf(s, a.t).phase.Count? {
      CountTakesAll(s, a.t, TaskOf(s, a.t).phase.n, TaskOf(s, a.t).call, u);
    } else {
      AvailStays(s, a);
      OtherTask(s, a, u);
    }
  }

  /** While a task counts nobody else is in the middle of a visit. */
  lemma CountTakesAll(s: Pipe, t: Tid, n: nat, c: Call, u: Tid)
    requires Inv(s) && TaskOf(s, t) == Busy(Count(n), c) && u != t && CallInv(s, t)
    ensures TakesAll(CountStep(s, t, c, n), u)
  {
    assert MonZones(s)(t) == Inside;
    assert MonZones(s)(u) != Inside;
  }

  lemma OwnTakesAll(s: Pipe, a: Action)
    requires Inv(s) && Enabled(s, a) && TakesAll(s, a.t)
    ensures TakesAll(Step(s, a), a.t)
  {
    match a
    case Begin(t, c) =>
    case TimeOut(t) =>
    case Prioritize(t, prio) => PriorityFrame(s, t, prio, t);
    case Advance(t) =>
      var p, c := TaskOf(s, t).phase, TaskOf(s, t).call;
      assert CallInv(s, t);
      AdvanceIsSafe(s, t);
      if p.AtSignal? {
        WokenSleeps(s, Other(c.side));
        SignalTasks(s, t, c, p.n, t);
      } else {
        AdvanceTakesAll(s, t, p, c);
      }
  }

  lemma AdvanceTakesAll(s: Pipe, t: Tid, p: Phase, c: Call)
    requires TaskOf(s, t) == Busy(p, c) && Safe(s, p, c) && CallInv(s, t) && TakesAll(s, t) && !p.AtSignal?
    ensures TakesAll(Do(s, t, p, c), t)
  {
    match p
    case Test => TestTakesAll(s, t, c);
    case Copy(n, i) => CopyTakesAll(s, t, c, n, i);
    case Count(n) => OwnCount(s, t, n, c);
    case Loop(n) => OwnLoop(s, t, c, n);
    case _ =>
  }

  lemma TestTakesAll(s: Pipe, t: Tid, c: Call)
    requires c.done <= c.want && s.avail <= s.size
    ensures TakesAll(TestStep(s, t, c), t)
  {
    OwnTest(s, t, c);
  }

  lemma CopyTakesAll(s: Pipe, t: Tid, c: Call, n: nat, i: nat)
    requires Safe(s, Copy(n, i), c) && TaskOf(s, t) == Busy(Copy(n, i), c) && TakesAll(s, t)
    ensures TakesAll(CopyStep(s, t, c, n, i), t)
  {
    OwnCopy(s, t, c, n, i);
  }

  lemma OwnCount(s: Pipe, t: Tid, n: nat, c: Call)
    requires TaskOf(s, t) == Busy(Count(n), c) && CallInv(s, t) && TakesAll(s, t)
    ensures TakesAll(CountStep(s, t, c, n), t)
  {
  }

  lemma StepOneVisit(s: Pipe, a: Action, u: Tid)
    requires Inv(s) && Enabled(s, a) && OneVisit(TaskOf(s, u))
    ensures OneVisit(TaskOf(Step(s, a), u))
  {
    if u != a.t {
      OtherTask(s, a, u);
    } else {
      match a
      case Begin(t, c) =>
      case TimeOut(t) =>
      case Prioritize(t, prio) => PriorityFrame(s, t, prio, t);
      case Advance(t) =>
        var p, c := TaskOf(s, t).phase, TaskOf(s, t).call;
        assert CallInv(s, t);
        AdvanceIsSafe(s, t);
        if p.AtSignal? {
          WokenSleeps(s, Other(c.side));
          SignalTasks(s, t, c, p.n, t);
        } else {
          OwnTask(s, t, p, c);
          if p.Loop? { OwnLoop(s, t, c, p.n); }
        }
    }
  }

  lemma StepPatient(s: Pipe, a: Action, u: Tid)
    requires Inv(s) && Enabled(s, a) && Patient(s, u)
    ensures Patient(Step(s, a), u)
  {
    if TaskOf(s, u).Busy? && TaskOf(s, u).phase.AtMutex? && TaskOf(s, u).call.limit.Never? {
      GateStays(s, a, u, TaskOf(s, u).call);
    }
    if u != a.t {
      OtherTask(s, a, u);
    } else {
      OwnPatient(s, a);
    }
  }

  lemma OwnPatient(s: Pipe, a: Action)
    requires Inv(s) && Enabled(s, a) && Patient(s, a.t)
    requires var k := TaskOf(s, a.t);
      k.Busy? && k.phase.AtMutex? && k.call.limit.Never? ==> Mut(Step(s, a), k.call.side).holder == Some(a.t)
    ensures Patient(Step(s, a), a.t)
  {
    match a
    case Begin(t, c) =>
    case TimeOut(t) =>
    case Prioritize(t, prio) => PriorityFrame(s, t, prio, t);
    case Advance(t) =>
      var p, c := TaskOf(s, t).phase, TaskOf(s, t).call;
      assert CallInv(s, t);
      AdvanceIsSafe(s, t);
      if p.AtSignal? {
        WokenSleeps(s, Other(c.side));
        SignalTasks(s, t, c, p.n, t);
      } else {
        OwnTask(s, t, p, c);
        if p.Loop? { OwnLoop(s, t, c, p.n); }
      }
  }

  /** A task at the gate of a mutex that is its own keeps it. */
  lemma GateStays(s: Pipe, a: Action, u: Tid, c: Call)
    requires Inv(s) && Enabled(s, a) && TaskOf(s, u) == Busy(AtMutex, c) && Mut(s, c.side).holder == Some(u)
    ensures Mut(Step(s, a), c.side).holder == Some(u)
  {
    assert CallInv(s, u);
    if a.Advance? {
      assert CallInv(s, a.t);
      AdvanceIsSafe(s, a.t);
      assert MutZones(s, c.side)(a.t) == MutZone(TaskOf(s, a.t), c.side);
      AdvanceMutex(s, a.t, c.side);
    }
  }

  /** Only a task that unlocks touches a mutex. */
  lemma AdvanceMutex(s: Pipe, t: Tid, side: Side)
    requires TaskOf(s, t).Busy? && Safe(s, TaskOf(s, t).phase, TaskOf(s, t).call)
    requires TaskOf(s, t).phase.AtUnlock? ==> TaskOf(s, t).call.side != side
    ensures Mut(Step(s, Advance(t)), side) == Mut(s, side)
  {
    var p, c := TaskOf(s, t).phase, TaskOf(s, t).call;
    match p
    case Test => TestMutex(s, t, c, side);
    case AtSignal(n) => SignalMutex(s, t, c, n, side);
    case _ =>
  }

  lemma TestMutex(s: Pipe, t: Tid, c: Call, side: Side)
    requires c.done <= c.want && s.avail <= s.size
    ensures Mut(TestStep(s, t, c), side) == Mut(s, side)
  {
  }

  lemma SignalMutex(s: Pipe, t: Tid, c: Call, n: nat, side: Side)
    ensures Mut(SignalStep(s, t, c, n), side) == Mut(s, side)
  {
  }

  // ----- what a call returns -----

  /** The number of bytes the action makes its task's call return, if the call ends with it. */
  function Answer(s: Pipe, a: Action): Option<nat> {
    match a
    case Begin(t, c) =>
      if c.want == 0 || (Serial(s, c.side) && Mut(s, c.side).holder.Some? && c.limit.Never?) then Some(0) else None
    case TimeOut(t) => if TaskOf(s, t).Busy? && TaskOf(s, t).phase.AtMutex? then Some(0) else None
    case Prioritize(_, _) => None
    case Advance(t) =>
      var k := TaskOf(s, t);
      if k.Idle? then None
      else if k.phase.AtUnlock? then Some(k.call.done)
      else if k.phase.Loop? && !Serial(s, k.call.side)
           && !(k.call.all && k.phase.n > 0 && k.call.done + k.phase.n < k.call.want)
      then Some(k.call.done + k.phase.n)
      else None
  }

  /** The bytes `t` has moved through the ring since its call began, `n` of them before the action. */
  function MovedNow(s: Pipe, a: Action, t: Tid, n: int): int {
    if a.t != t then n
    else if a.Begin? then 0
    else n + (|Step(s, a).written| + |Step(s, a).read|) - (|s.written| + |s.read|)
  }

  function MovedBy(s: Pipe, acts: seq<Action>, t: Tid, n: int): int
    decreases acts
  {
    if acts == [] then n else MovedBy(Step(s, acts[0]), acts[1..], t, MovedNow(s, acts[0], t, n))
  }

  /** What the caller asked for, with its priority as it has been set since. */
  function AskedNow(a: Action, t: Tid, c: Call): Call {
    if a.t != t then c
    else match a
      case Begin(_, c') => c'
      case Prioritize(_, prio) => c.(prio := prio)
      case _ => c
  }

  function Asked(acts: seq<Action>, t: Tid, c: Call): Call
    decreases acts
  {
    if acts == [] then c else Asked(acts[1..], t, AskedNow(acts[0], t, c))
  }

  /** A task in the middle of a call does what it was asked for. */
  predicate Obeys(k: Task, c: Call) {
    k.Busy? ==>
      && k.call.side == c.side && k.call.want == c.want && k.call.all == c.all
      && k.call.limit == c.limit && k.call.prio == c.prio
      && (c.side.Put? ==> k.call.data == c.data)
  }

  /** Nothing but the copying of a byte reaches the streams. */
  lemma StreamsStay(s: Pipe, a: Action)
    requires Inv(s) && Enabled(s, a)
    requires !(a.Advance? && TaskOf(s, a.t).phase.Copy? && TaskOf(s, a.t).phase.i < TaskOf(s, a.t).phase.n)
    ensures Step(s, a).written == s.written && Step(s, a).read == s.read
  {
    match a
    case Begin(t, c) =>
    case TimeOut(t) =>
    case Prioritize(t, prio) => PriorityFrame(s, t, prio, t);
    case Advance(t) =>
      var p, c := TaskOf(s, t).phase, TaskOf(s, t).call;
      assert CallInv(s, t);
      AdvanceIsSafe(s, t);
      if p.AtSignal? {
        WokenSleeps(s, Other(c.side));
        SignalTracks(s, t, c, p.n, t);
      } else {
        DoTracks(s, t, p, c, t);
      }
  }

  lemma CopyMoves(s: Pipe, t: Tid, c: Call, n: nat, i: nat)
    requires Safe(s, Copy(n, i), c) && i < n
    ensures |CopyStep(s, t, c, n, i).written| + |CopyStep(s, t, c, n, i).read| == |s.written| + |s.read| + 1
    ensures TaskOf(CopyStep(s, t, c, n, i), t).Busy? && TaskOf(CopyStep(s, t, c, n, i), t).phase == Copy(n, i + 1)
    ensures c.side.Put? ==> TaskOf(CopyStep(s, t, c, n, i), t).call == c
  {
  }

  lemma StepMoved(s: Pipe, a: Action, u: Tid, n: int)
    requires Inv(s) && Enabled(s, a) && (TaskOf(s, u).Busy? ==> n == Progress(TaskOf(s, u)))
    ensures TaskOf(Step(s, a), u).Busy? ==> MovedNow(s, a, u, n) == Progress(TaskOf(Step(s, a), u))
  {
    if u != a.t {
      OtherTask(s, a, u);
    } else if a.Advance? && TaskOf(s, u).phase.Copy? && TaskOf(s, u).phase.i < TaskOf(s, u).phase.n {
      assert CallInv(s, u);
      AdvanceIsSafe(s, u);
      var c := TaskOf(s, u).call;
      CopyMoves(s, u, c, TaskOf(s, u).phase.n, TaskOf(s, u).phase.i);
      OwnCopy(s, u, c, TaskOf(s, u).phase.n, TaskOf(s, u).phase.i);
    } else {
      StreamsStay(s, a);
      QuietProgress(s, a);
    }
  }

  /** Any other statement leaves its task's progress as it is. */
  lemma QuietProgress(s: Pipe, a: Action)
    requires Inv(s) && Enabled(s, a)
    requires !(a.Advance? && TaskOf(s, a.t).phase.Copy? && TaskOf(s, a.t).phase.i < TaskOf(s, a.t).phase.n)
    ensures a.Begin? ==> Progress(TaskOf(Step(s, a), a.t)) == 0
    ensures !a.Begin? && TaskOf(Step(s, a), a.t).Busy? ==>
      TaskOf(s, a.t).Busy? && Progress(TaskOf(Step(s, a), a.t)) == Progress(TaskOf(s, a.t))
  {
    match a
    case Begin(t, c) =>
    case TimeOut(t) =>
    case Prioritize(t, prio) => PriorityFrame(s, t, prio, t);
    case Advance(t) =>
      var p, c := TaskOf(s, t).phase, TaskOf(s, t).call;
      assert CallInv(s, t);
      AdvanceIsSafe(s, t);
      if p.AtSignal? {
        WokenSleeps(s, Other(c.side));
        SignalTasks(s, t, c, p.n, t);
      } else {
        AdvanceProgress(s, t, p, c);
      }
  }

  lemma AdvanceProgress(s: Pipe, t: Tid, p: Phase, c: Call)
    requires TaskOf(s, t) == Busy(p, c) && Safe(s, p, c) && CallInv(s, t) && !p.AtSignal? && !p.Asleep?
    requires p.Copy? ==> p.i == p.n
    ensures TaskOf(Do(s, t, p, c), t).Busy? ==> Progress(TaskOf(Do(s, t, p, c), t)) == Progress(TaskOf(s, t))
  {
    OwnTask(s, t, p, c);
    if p.Loop? { OwnLoop(s, t, c, p.n); }
  }

  lemma StepObeys(s: Pipe, a: Action, u: Tid, c0: Call)
    requires Inv(s) && Enabled(s, a) && Obeys(TaskOf(s, u), c0)
    ensures Obeys(TaskOf(Step(s, a), u), AskedNow(a, u, c0))
  {
    if u != a.t {
      OtherTask(s, a, u);
    } else {
      match a
      case Begin(t, c) =>
      case TimeOut(t) =>
      case Prioritize(t, prio) => PriorityCall(s, t, prio);
      case Advance(t) =>
        var p, c := TaskOf(s, t).phase, TaskOf(s, t).call;
        assert CallInv(s, t);
        AdvanceIsSafe(s, t);
        if p.AtSignal? {
          WokenSleeps(s, Other(c.side));
          SignalTasks(s, t, c, p.n, t);
        } else {
          OwnTask(s, t, p, c);
          if p.Loop? { OwnLoop(s, t, c, p.n); }
          if p.Copy? && p.i < p.n { CopyMoves(s, t, c, p.n, p.i); }
          if p.Copy? && p.i >= p.n { assert Do(s, t, p, c) == Goto(s, t, Count(p.n), c); }
        }
    }
  }

  lemma PriorityCall(s: Pipe, t: Tid, prio: nat)
    ensures TaskOf(s, t).Busy? ==>
      TaskOf(PriorityStep(s, t, prio), t) == Busy(TaskOf(s, t).phase, TaskOf(s, t).call.(prio := prio))
  {
  }

  /** What every call keeps, beside the invariants of the pipe. */
  ghost predicate CallOk(s: Pipe, t: Tid, n: int, c: Call) {
    && TakesAll(s, t) && OneVisit(TaskOf(s, t)) && Patient(s, t)
    && (TaskOf(s, t).Busy? ==> n == Progress(TaskOf(s, t)))
    && Obeys(TaskOf(s, t), c)
  }

  lemma {:induction false} RunKeepsCall(s: Pipe, acts: seq<Action>, t: Tid, n: int, c: Call)
    requires Good(s) && Possible(s, acts) && CallOk(s, t, n, c)
    ensures CallOk(Run(s, acts), t, MovedBy(s, acts, t, n), Asked(acts, t, c))
    decreases acts
  {
    if acts != [] {
      var a := acts[0];
      StepKeepsGood(s, a);
      StepTakesAll(s, a, t);
      StepOneVisit(s, a, t);
      StepPatient(s, a, t);
      StepMoved(s, a, t, n);
      StepObeys(s, a, t, c);
      RunKeepsCall(Step(s, a), acts[1..], t, MovedNow(s, a, t, n), AskedNow(a, t, c));
    }
  }

  lemma ReachableCall(s: Pipe, t: Tid)
    requires Reachable(s)
    ensures TakesAll(s, t) && OneVisit(TaskOf(s, t)) && Patient(s, t)
  {
    var size: nat, accessGet: Access, accessPut: Access, acts: seq<Action> :|
      size > 0 && Possible(Init(size, accessGet, accessPut), acts) && s == Run(Init(size, accessGet, accessPut), acts);
    InitIsGood(size, accessGet, accessPut);
    RunKeepsCall(Init(size, accessGet, accessPut), acts, t, 0, NOBODY);
  }

  /**
   A visit to the monitor that moves anything moves all that is wanted, or leaves the pipe empty behind a get and full
   behind a put.  A get that does not ask for all makes one such visit.
   */
  lemma VisitMovesAll(s: Pipe, t: Tid, c: Call, n: nat)
    requires Reachable(s) && TaskOf(s, t) == Busy(AtLeave(n), c) && n > 0
    ensures n == c.want - c.done || s.avail == if c.side.Get? then 0 else s.size
    ensures !c.all ==> c.done == 0
  {
    ReachableCall(s, t);
  }

  /**
   After a visit that moved `n` bytes a call goes on exactly when it wants all, moved something, and has not got all;
   otherwise it ends, by itself or at its mutex, with the bytes of this visit added to those before.
   */
  lemma CallEndsOrGoesOn(s: Pipe, t: Tid, c: Call, n: nat)
    requires Reachable(s) && TaskOf(s, t) == Busy(Loop(n), c)
    ensures c.done + n <= c.want
    ensures var s' := Step(s, Advance(t));
      if c.all && n > 0 && c.done + n != c.want then
        TaskOf(s', t) == Busy(AtMonitor, c.(done := c.done + n)) && Answer(s, Advance(t)) == None
      else
        || (TaskOf(s', t).Idle? && Answer(s, Advance(t)) == Some(c.done + n))
        || (TaskOf(s', t).Busy? && TaskOf(s', t).phase.AtUnlock? && Enabled(s', Advance(t))
            && Answer(s', Advance(t)) == Some(c.done + n))
    ensures !c.all ==> c.done == 0
  {
    ReachableIsGood(s);
    ReachableCall(s, t);
    assert CallInv(s, t);
    AdvanceIsSafe(s, t);
    LoopEnds(s, t, c, n);
  }

  /** The two ways on from the end of a visit. */
  lemma LoopEnds(s: Pipe, t: Tid, c: Call, n: nat)
    requires TaskOf(s, t) == Busy(Loop(n), c) && Safe(s, Loop(n), c) && c.done + n <= c.want
    ensures var s' := Step(s, Advance(t));
      if c.all && n > 0 && c.done + n != c.want then
        TaskOf(s', t) == Busy(AtMonitor, c.(done := c.done + n)) && Answer(s, Advance(t)) == None
      else
        || (TaskOf(s', t).Idle? && Answer(s, Advance(t)) == Some(c.done + n))
        || (TaskOf(s', t) == Busy(AtUnlock, c.(done := c.done + n)) && Enabled(s', Advance(t))
            && Answer(s', Advance(t)) == Some(c.done + n))
  {
    OwnLoop(s, t, c, n);
  }

  /** With both sides serialized, a call without a time limit never returns empty-handed. */
  lemma ForeverMovesSome(s: Pipe, t: Tid, c: Call)
    requires Reachable(s) && BothSerial(s) && TaskOf(s, t) == Busy(AtUnlock, c) && c.limit.Forever?
    ensures Answer(s, Advance(t)) == Some(c.done) && c.done > 0
  {
    ReachableIsGood(s);
    assert WakeInv(s, t);
  }

  /** A call without patience never sleeps on a condition, and waits for no mutex. */
  lemma ImpatientNeverSleeps(s: Pipe, t: Tid)
    requires Reachable(s) && TaskOf(s, t).Busy? && TaskOf(s, t).call.limit.Never?
    ensures !TaskOf(s, t).phase.Asleep?
    ensures TaskOf(s, t).phase.AtMutex? ==> Enabled(s, Advance(t))
  {
    ReachableCall(s, t);
  }

  /** The call of a task that has made none. */
  const NOBODY := Call(Get, 0, [], false, Mutexes.Limit.Never, 0, 0)

  /** What a call that returns `r` with action `a` has done. */
  ghost predicate ReturnsTruly(s: Pipe, a: Action, r: nat, moved: int, asked: Call) {
    && MovedNow(s, a, a.t, moved) == r
    && (!a.Begin? ==>
          && r <= asked.want && Obeys(TaskOf(s, a.t), asked) && TaskOf(s, a.t).Busy? && TaskOf(Step(s, a), a.t).Idle?
          && (asked.side.Get? && !a.TimeOut? ==> r == |TaskOf(s, a.t).call.data|))
  }

  /**
   Over every run a call returns the number of bytes it has moved through the ring since it began, which is at most
   what its caller asked for; a get has them in its buffer, and a put moves its caller's bytes.
   */
  lemma AnswerCountsBytes(size: nat, accessGet: Access, accessPut: Access, acts: seq<Action>, a: Action, r: nat)
    requires size > 0 && Possible(Init(size, accessGet, accessPut), acts)
    requires Enabled(Run(Init(size, accessGet, accessPut), acts), a)
    requires Answer(Run(Init(size, accessGet, accessPut), acts), a) == Some(r)
    ensures var s0 := Init(size, accessGet, accessPut);
      ReturnsTruly(Run(s0, acts), a, r, MovedBy(s0, acts, a.t, 0), Asked(acts, a.t, NOBODY))
  {
    InitIsGood(size, accessGet, accessPut);
    RunReturnsTruly(Init(size, accessGet, accessPut), acts, a, r);
  }

  lemma RunReturnsTruly(s0: Pipe, acts: seq<Action>, a: Action, r: nat)
    requires Good(s0) && Possible(s0, acts) && CallOk(s0, a.t, 0, NOBODY)
    requires Enabled(Run(s0, acts), a) && Answer(Run(s0, acts), a) == Some(r)
    ensures ReturnsTruly(Run(s0, acts), a, r, MovedBy(s0, acts, a.t, 0), Asked(acts, a.t, NOBODY))
  {
    RunIsGood(s0, acts);
    RunKeepsCall(s0, acts, a.t, 0, NOBODY);
    ReturnIsTrue(Run(s0, acts), a, r, MovedBy(s0, acts, a.t, 0), Asked(acts, a.t, NOBODY));
  }

  lemma ReturnIsTrue(s: Pipe, a: Action, r: nat, moved: int, asked: Call)
    requires Inv(s) && Enabled(s, a) && Answer(s, a) == Some(r) && Obeys(TaskOf(s, a.t), asked)
    requires TaskOf(s, a.t).Busy? ==> moved == Progress(TaskOf(s, a.t))
    ensures ReturnsTruly(s, a, r, moved, asked)
  {
    assert CallInv(s, a.t);
    AnswerIsProgress(s, a, r);
  }

  lemma AnswerIsProgress(s: Pipe, a: Action, r: nat)
    requires Inv(s) && Enabled(s, a) && Answer(s, a) == Some(r) && CallInv(s, a.t)
    ensures Step(s, a).written == s.written && Step(s, a).read == s.read
    ensures a.Begin? ==> r == 0
    ensures !a.Begin? ==>
      && TaskOf(s, a.t).Busy? && r == Progress(TaskOf(s, a.t)) && r <= TaskOf(s, a.t).call.want
      && TaskOf(Step(s, a), a.t).Idle?
  {
    StreamsStay(s, a);
    if a.Advance? && TaskOf(s, a.t).phase.Loop? {
      OwnLoop(s, a.t, TaskOf(s, a.t).call, TaskOf(s, a.t).phase.n);
    }
  }

  // ----- a visit taken alone is get_data or put_data -----

  ghost predicate NextIs(s: Pipe, s': Pipe, t: Tid) { Enabled(s, Advance(t)) && s' == Step(s, Advance(t)) }

  /** The task executes its statements one after the other, and nobody else any. */
  ghost predicate Alone(h: seq<Pipe>, t: Tid) {
    |h| > 0 && forall i :: 0 <= i < |h| - 1 ==> NextIs(h[i], h[i+1], t)
  }

  ghost function End(h: seq<Pipe>): Pipe
    requires h != []
  {
    h[|h|-1]
  }

  lemma {:induction false} AloneKeepsInv(h: seq<Pipe>, t: Tid, k: nat)
    requires Alone(h, t) && Inv(h[0]) && k < |h|
    ensures Inv(h[k])
  {
    if k > 0 {
      AloneKeepsInv(h, t, k - 1);
      assert NextIs(h[k-1], h[k], t);
      StepKeepsInv(h[k-1], Advance(t));
    }
  }

  lemma AloneGrows(h: seq<Pipe>, t: Tid, next: Pipe)
    requires Alone(h, t) && NextIs(End(h), next, t)
    ensures Alone(h + [next], t) && End(h + [next]) == next && (h + [next])[0] == h[0]
  {
    var r := h + [next];
    forall i | 0 <= i < |r| - 1 ensures NextIs(r[i], r[i+1], t) {
      assert r[i] == h[i] && (i < |h| - 1 ==> r[i+1] == h[i+1]);
    }
  }

  /** What the copying of `n` bytes leaves: a get has received them, a put has given its own from `from` on. */
  ghost predicate HasMoved(s: Pipe, s': Pipe, c: Call, c': Call, from: nat, n: nat) {
    && s'.avail == s.avail && s'.size == s.size && c' == c.(data := c'.data)
    && (c.side.Put? ==>
          c' == c && s'.read == s.read && from + n <= |c.data| && s'.written == s.written + c.data[from..from+n])
    && (c.side.Get? ==> |c'.data| == |c.data| + n && c'.data[..|c.data|] == c.data)
    && (c.side.Get? ==> s'.written == s.written && s'.read == s.read + c'.data[|c.data|..])
  }

  lemma NothingMoved(s: Pipe, c: Call, from: nat)
    requires c.side.Put? ==> from <= |c.data|
    ensures HasMoved(s, s, c, c, from, 0)
  {
    assert c.side.Put? ==> c.data[from..from] == [];
    assert c.data[|c.data|..] == [] && c.data[..|c.data|] == c.data;
  }

  lemma OneMoreMoved(s: Pipe, s1: Pipe, s2: Pipe, c: Call, c1: Call, c2: Call, from: nat, n: nat)
    requires HasMoved(s, s1, c, c1, from, n) && HasMoved(s1, s2, c1, c2, from + n, 1)
    ensures HasMoved(s, s2, c, c2, from, n + 1)
  {
    if c.side.Put? {
      PutChain(s.written, s1.written, s2.written, c.data, from, from + n);
    } else {
      GetChain(s.read, s1.read, s2.read, c.data, c1.data, c2.data);
    }
  }

  /** All that the copying loop needs to know. */
  predicate CanCopy(s: Pipe, c: Call, n: nat) {
    && s.head < |s.buf| == s.size && s.tail < s.size && s.avail <= s.size && c.done + n <= c.want
    && (c.side.Put? ==> |c.data| == c.want)
  }

  /** The first `k` bytes of a copying loop that nobody interrupts, behind the statements in `h0`. */
  lemma {:induction false} CopiesAlone(h0: seq<Pipe>, t: Tid, c: Call, n: nat, k: nat)
    returns (h: seq<Pipe>, c': Call)
    requires Alone(h0, t) && CanCopy(End(h0), c, n) && TaskOf(End(h0), t) == Busy(Copy(n, 0), c) && k <= n
    ensures Alone(h, t) && |h| == |h0| + k && h[0] == h0[0]
    ensures CanCopy(End(h), c', n) && TaskOf(End(h), t) == Busy(Copy(n, k), c')
    ensures HasMoved(End(h0), End(h), c, c', c.done, k)
  {
    if k == 0 {
      h, c' := h0, c;
      NothingMoved(End(h0), c, c.done);
    } else {
      var h1, c1 := CopiesAlone(h0, t, c, n, k - 1);
      var next;
      next, c' := OneByte(End(h1), t, c1, n, k - 1);
      AloneGrows(h1, t, next);
      h := h1 + [next];
      OneMoreMoved(End(h0), End(h1), next, c, c1, c', c.done, k - 1);
    }
  }

  lemma OneByte(s: Pipe, t: Tid, c: Call, n: nat, i: nat) returns (next: Pipe, c': Call)
    requires CanCopy(s, c, n) && i < n && TaskOf(s, t) == Busy(Copy(n, i), c)
    ensures NextIs(s, next, t) && CanCopy(next, c', n) && TaskOf(next, t) == Busy(Copy(n, i + 1), c')
    ensures HasMoved(s, next, c, c', c.done + i, 1)
  {
    next := CopyStep(s, t, c, n, i);
    c' := TaskOf(next, t).call;
    assert c.side.Put? ==> c.data[c.done+i..c.done+i+1] == [c.data[c.done+i]];
    assert c.side.Get? ==> c'.data[|c.data|..] == [s.buf[s.head]];
  }

  lemma PutChain(w0: seq<Byte>, w1: seq<Byte>, w2: seq<Byte>, data: seq<Byte>, from: nat, to: nat)
    requires from <= to < |data| && w1 == w0 + data[from..to] && w2 == w1 + data[to..to+1]
    ensures w2 == w0 + data[from..to+1]
  {
    assert data[from..to+1] == data[from..to] + data[to..to+1];
  }

  lemma GetChain(r0: seq<Byte>, r1: seq<Byte>, r2: seq<Byte>, d0: seq<Byte>, d1: seq<Byte>, d2: seq<Byte>)
    requires |d0| <= |d1| <= |d2| && d1[..|d0|] == d0 && d2[..|d1|] == d1
    requires r1 == r0 + d1[|d0|..] && r2 == r1 + d2[|d1|..]
    ensures d2[..|d0|] == d0 && r2 == r0 + d2[|d0|..]
  {
    assert d2[..|d0|] == d2[..|d1|][..|d0|];
    assert d2[|d0|..] == d1[|d0|..] + d2[|d1|..];
  }

  /** While nobody copies the ring holds what is written and not read. */
  predicate RingIs(s: Pipe) {
    s.head < |s.buf| == s.size && s.avail <= s.size && s.written == s.read + Contents(s.buf, s.head, s.avail)
  }

  /**
   From the test on, taken alone, a get call on a pipe that is not empty does what get_data promises: the oldest bytes,
   as many as are wanted and present, move to the caller, and the ring keeps the rest.
   */
  lemma VisitIsGetData(s: Pipe, t: Tid, c: Call) returns (h: seq<Pipe>)
    requires Reachable(s) && TaskOf(s, t) == Busy(Test, c) && c.side.Get? && s.avail > 0
    ensures |s.buf| == s.size && s.head < s.size && s.avail <= s.size && c.done <= c.want
    ensures Alone(h, t) && h[0] == s && |h| == Min(c.want - c.done, s.avail) + 4
    ensures var n := Min(c.want - c.done, s.avail);
      var was, s' := Contents(s.buf, s.head, s.avail), End(h);
      && |s'.buf| == s'.size == s.size && s'.head < s'.size && s'.avail == s.avail - n
      && Contents(s'.buf, s'.head, s'.avail) == was[n..]
      && TaskOf(s', t) == Busy(AtSignal(n), c.(data := c.data + was[..n]))
  {
    var n, c';
    n, h, c' := VisitAlone(s, t, c);
    GetMoved(s, End(h), c, c', n);
  }

  lemma GetMoved(s: Pipe, s': Pipe, c: Call, c': Call, n: nat)
    requires RingIs(s) && RingIs(s') && c.side.Get? && n <= s.avail && s'.avail == s.avail - n
    requires HasMoved(s, s'.(avail := s.avail), c, c', c.done, n)
    ensures var was := Contents(s.buf, s.head, s.avail);
      Contents(s'.buf, s'.head, s'.avail) == was[n..] && c' == c.(data := c.data + was[..n])
  {
    var was := Contents(s.buf, s.head, s.avail);
    var now := Contents(s'.buf, s'.head, s'.avail);
    assert c'.data == c.data + c'.data[|c.data|..];
    Cancels(s.read, was, c'.data[|c.data|..], now);
  }

  /** The same for a put call on a pipe that is not full, and put_data. */
  lemma VisitIsPutData(s: Pipe, t: Tid, c: Call) returns (h: seq<Pipe>)
    requires Reachable(s) && TaskOf(s, t) == Busy(Test, c) && c.side.Put? && s.avail < s.size
    ensures |s.buf| == s.size && s.head < s.size && s.avail <= s.size && c.done <= c.want == |c.data|
    ensures Alone(h, t) && h[0] == s && |h| == Min(c.want - c.done, s.size - s.avail) + 4
    ensures var n := Min(c.want - c.done, s.size - s.avail);
      var was, s' := Contents(s.buf, s.head, s.avail), End(h);
      && |s'.buf| == s'.size == s.size && s'.head < s'.size && s'.avail == s.avail + n <= s.size
      && Contents(s'.buf, s'.head, s'.avail) == was + c.data[c.done..c.done+n]
      && TaskOf(s', t) == Busy(AtSignal(n), c)
  {
    var n, c';
    n, h, c' := VisitAlone(s, t, c);
    PutMoved(s, End(h), c, c', n);
  }

  lemma PutMoved(s: Pipe, s': Pipe, c: Call, c': Call, n: nat)
    requires RingIs(s) && RingIs(s') && c.side.Put? && HasMoved(s, s'.(avail := s.avail), c, c', c.done, n)
    requires s'.avail == s.avail + n
    ensures c.done + n <= |c.data| && c' == c
    ensures Contents(s'.buf, s'.head, s'.avail) == Contents(s.buf, s.head, s.avail) + c.data[c.done..c.done+n]
  {
    var was := Contents(s.buf, s.head, s.avail);
    var now := Contents(s'.buf, s'.head, s'.avail);
    assert s.read + now == s.read + (was + c.data[c.done..c.done+n]);
    SamePrefix(s.read, now, was + c.data[c.done..c.done+n]);
  }

  lemma SamePrefix<T>(a: seq<T>, x: seq<T>, y: seq<T>)
    requires a + x == a + y
    ensures x == y
  {
    assert (a + x)[|a|..] == x;
    assert (a + y)[|a|..] == y;
  }

  lemma Cancels<T>(a: seq<T>, was: seq<T>, x: seq<T>, now: seq<T>)
    requires a + was == (a + x) + now
    ensures was[..|x|] == x && was[|x|..] == now
  {
    assert (a + x) + now == a + (x + now);
    SamePrefix(a, was, x + now);
  }

  /** Test, copying loop, its exit and the count. */
  lemma VisitAlone(s: Pipe, t: Tid, c: Call) returns (n: nat, h: seq<Pipe>, c': Call)
    requires Reachable(s) && TaskOf(s, t) == Busy(Test, c) && !Stuck(s, c.side)
    ensures c.done <= c.want && s.avail <= s.size && (c.side.Put? ==> |c.data| == c.want)
    ensures n == Min(c.want - c.done, if c.side.Get? then s.avail else s.size - s.avail)
    ensures Alone(h, t) && |h| == n + 4 && h[0] == s
    ensures var s' := End(h);
      && TaskOf(s', t) == Busy(AtSignal(n), c') && RingIs(s) && RingIs(s') && s'.size == s.size
      && s'.avail == (if c.side.Get? then s.avail - n else s.avail + n)
      && HasMoved(s, s'.(avail := s.avail), c, c', c.done, n)
  {
    var s1;
    n, s1 := TestAlone(s, t, c);
    AloneGrows([s], t, s1);
    h, c' := RestAlone([s] + [s1], t, c, n);
  }

  lemma RestAlone(h0: seq<Pipe>, t: Tid, c: Call, n: nat) returns (h: seq<Pipe>, c': Call)
    requires Alone(h0, t) && Inv(h0[0]) && CanCopy(End(h0), c, n) && TaskOf(End(h0), t) == Busy(Copy(n, 0), c)
    ensures Alone(h, t) && |h| == |h0| + n + 2 && h[0] == h0[0]
    ensures TaskOf(End(h), t) == Busy(AtSignal(n), c') && RingIs(End(h)) && End(h).size == End(h0).size
    ensures End(h).avail == if c.side.Get? then End(h0).avail - n else End(h0).avail + n
    ensures HasMoved(End(h0), End(h).(avail := End(h0).avail), c, c', c.done, n)
  {
    var h2;
    h2, c' := CopiesAlone(h0, t, c, n, n);
    AloneKeepsInv(h2, t, |h2| - 1);
    var mid, last := EndOfVisit(End(h2), t, c', n);
    AloneGrows(h2, t, mid);
    AloneGrows(h2 + [mid], t, last);
    h := h2 + [mid] + [last];
    SameMoved(End(h0), End(h2), last, c, c', n);
  }

  lemma SameMoved(s: Pipe, s2: Pipe, s': Pipe, c: Call, c': Call, n: nat)
    requires HasMoved(s, s2, c, c', c.done, n)
    requires s'.size == s2.size && s'.written == s2.written && s'.read == s2.read
    ensures HasMoved(s, s'.(avail := s.avail), c, c', c.done, n)
  {
  }

  lemma TestAlone(s: Pipe, t: Tid, c: Call) returns (n: nat, s1: Pipe)
    requires Reachable(s) && TaskOf(s, t) == Busy(Test, c) && !Stuck(s, c.side)
    ensures c.done <= c.want && s.avail <= s.size && RingIs(s)
    ensures n == Min(c.want - c.done, if c.side.Get? then s.avail else s.size - s.avail)
    ensures NextIs(s, s1, t) && s1 == Goto(s, t, Copy(n, 0), c) && CanCopy(s1, c, n)
    ensures Inv(s)
  {
    ReachableIsGood(s);
    assert CallInv(s, t);
    AdvanceIsSafe(s, t);
    DriftFree(s, t);
    n := Take(s, c);
    s1 := Step(s, Advance(t));
    StepKeepsInv(s, Advance(t));
  }

  /** The copying loop ends, and the bytes are counted. */
  lemma EndOfVisit(s: Pipe, t: Tid, c: Call, n: nat) returns (mid: Pipe, s': Pipe)
    requires Inv(s) && TaskOf(s, t) == Busy(Copy(n, n), c)
    ensures NextIs(s, mid, t) && NextIs(mid, s', t) && RingIs(s')
    ensures TaskOf(s', t) == Busy(AtSignal(n), c)
    ensures s'.size == s.size && s'.written == s.written && s'.read == s.read
    ensures s'.avail == if c.side.Get? then s.avail - n else s.avail + n
  {
    assert CallInv(s, t);
    AdvanceIsSafe(s, t);
    mid := Step(s, Advance(t));
    assert mid == Goto(s, t, Count(n), c);
    StepKeepsInv(s, Advance(t));
    s' := Counted(mid, t, c, n);
  }

  lemma Counted(s: Pipe, t: Tid, c: Call, n: nat) returns (s': Pipe)
    requires Inv(s) && TaskOf(s, t) == Busy(Count(n), c)
    ensures NextIs(s, s', t) && RingIs(s') && TaskOf(s', t) == Busy(AtSignal(n), c)
    ensures s'.size == s.size && s'.written == s.written && s'.read == s.read
    ensures s'.avail == if c.side.Get? then s.avail - n else s.avail + n
  {
    assert CallInv(s, t);
    AdvanceIsSafe(s, t);
    s' := Step(s, Advance(t));
    assert s' == CountStep(s, t, c, n);
    StepKeepsInv(s, Advance(t));
    DriftFree(s', t);
  }

  /**
   A call whose time has run out, or that had none, makes no further attempt: back in the monitor it leaves at once and
   ends with what it had.
   */
  lemma TimedOutCallEnds(s: Pipe, t: Tid, c: Call) returns (h: seq<Pipe>)
    requires Reachable(s) && TaskOf(s, t) == Busy(Reenter(false), c) && s.mon.holder == Some(t)
    ensures Alone(h, t) && h[0] == s && |h| == 3
    ensures Answer(End(h), Advance(t)) == Some(c.done)
      || (TaskOf(Step(End(h), Advance(t)), t) == Busy(AtUnlock, c))
    ensures End(h).written == s.written && End(h).read == s.read
  {
    ReachableIsGood(s);
    assert CallInv(s, t);
    AdvanceIsSafe(s, t);
    var s1 := Goto(s, t, AtLeave(0), c);
    assert NextIs(s, s1, t);
    StepKeepsInv(s, Advance(t));
    var s2 := LeavesAlone(s1, t, c);
    h := [s] + [s1] + [s2];
    AloneGrows([s], t, s1);
    AloneGrows([s] + [s1], t, s2);
  }

  lemma LeavesAlone(s: Pipe, t: Tid, c: Call) returns (s': Pipe)
    requires Inv(s) && TaskOf(s, t) == Busy(AtLeave(0), c)
    ensures NextIs(s, s', t) && TaskOf(s', t) == Busy(Loop(0), c) && s'.written == s.written && s'.read == s.read
    ensures Answer(s', Advance(t)) == Some(c.done) || TaskOf(Step(s', Advance(t)), t) == Busy(AtUnlock, c)
  {
    assert CallInv(s, t);
    AdvanceIsSafe(s, t);
    s' := Goto(s.(mon := Release(s.mon)), t, Loop(0), c);
    LoopAfterNothing(s', t, c);
  }

  lemma LoopAfterNothing(s: Pipe, t: Tid, c: Call)
    requires TaskOf(s, t) == Busy(Loop(0), c) && Safe(s, Loop(0), c)
    ensures Answer(s, Advance(t)) == Some(c.done) || TaskOf(Step(s, Advance(t)), t) == Busy(AtUnlock, c)
  {
    LoopEnds(s, t, c, 0);
    assert c.(done := c.done + 0) == c;
  }
}
