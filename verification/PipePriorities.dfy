/** The order of service in mtask2's pipe: whoever waits is queued with its priority, and the most urgent is served. */
module PipePriorities {
  import opened Base
  import opened WaitOrder
  import opened Locks
  import opened Pipes
  import opened PipeCalls

  // ----- waiters are queued with their priority, and the most urgent is served -----

  function PrioOf(s: Pipe, t: Tid): nat { if TaskOf(s, t).Busy? then TaskOf(s, t).call.prio else 0 }

  ghost function PricesOf(s: Pipe): Tid -> nat { (t: Tid) => PrioOf(s, t) }

  ghost predicate Prices(s: Pipe) {
    && Priced(s.mon.queue, PricesOf(s)) && Priced(s.condGet, PricesOf(s)) && Priced(s.condPut, PricesOf(s))
    && (Serial(s, Get) ==> Priced(s.mutGet.queue, PricesOf(s)))
    && (Serial(s, Put) ==> Priced(s.mutPut.queue, PricesOf(s)))
  }

  ghost predicate NotQueued(s: Pipe, t: Tid) {
    && t !in Names(s.mon.queue) && t !in Names(s.condGet) && t !in Names(s.condPut)
    && (Serial(s, Get) ==> t !in Names(s.mutGet.queue))
    && (Serial(s, Put) ==> t !in Names(s.mutPut.queue))
  }

  /** A task outside any call is in no queue. */
  lemma IdleIsNotQueued(s: Pipe, t: Tid)
    requires Inv(s) && TaskOf(s, t).Idle?
    ensures NotQueued(s, t)
  {
    assert MonZones(s)(t) == Away;
    assert Serial(s, Get) ==> MutZones(s, Get)(t) == Away;
    assert Serial(s, Put) ==> MutZones(s, Put)(t) == Away;
  }

  /** The priority a task acts with. */
  function ActsWith(s: Pipe, a: Action): nat { if a.Begin? then a.call.prio else PrioOf(s, a.t) }

  /** Every queue takes in the task that acts, with its priority, or nobody. */
  ghost predicate AllFed(s: Pipe, s': Pipe, t: Tid, p: nat) {
    && Fed(s.mon.queue, s'.mon.queue, t, p)
    && Fed(s.condGet, s'.condGet, t, p) && Fed(s.condPut, s'.condPut, t, p)
    && Fed(s.mutGet.queue, s'.mutGet.queue, t, p) && Fed(s.mutPut.queue, s'.mutPut.queue, t, p)
  }

  predicate SameQueues(s: Pipe, s': Pipe) {
    && s'.mon == s.mon && s'.condGet == s.condGet && s'.condPut == s.condPut
    && s'.mutGet == s.mutGet && s'.mutPut == s.mutPut
  }

  lemma BeginFed(s: Pipe, t: Tid, c: Call)
    ensures AllFed(s, Start(s, t, c), t, c.prio)
  {
    FedAcquire(s.mon, t, c.prio, false);
    FedAcquire(Mut(s, c.side), t, c.prio, c.limit.Never?);
  }

  lemma TimeOutFed(s: Pipe, t: Tid, p: Phase, c: Call)
    ensures AllFed(s, TimeOutStep(s, t, p, c), t, c.prio)
  {
    FedWithout(Cond(s, c.side), t, t, c.prio);
    FedGiveUp(Mut(s, c.side), t, t, c.prio);
  }

  lemma TestFed(s: Pipe, t: Tid, c: Call)
    requires c.done <= c.want && s.avail <= s.size
    ensures AllFed(s, TestStep(s, t, c), t, c.prio)
  {
    FedRelease(s.mon, t, c.prio);
    FedAcquire(Release(s.mon), t, c.prio, false);
    FedInsert(Cond(s, c.side), Entry(t, c.prio, s.clock));
    FedTwice(s.mon.queue, Release(s.mon).queue, Acquire(Release(s.mon), t, c.prio, false).queue, t, c.prio);
  }

  lemma SignalFed(s: Pipe, t: Tid, c: Call, n: nat)
    ensures AllFed(s, SignalStep(s, t, c, n), t, c.prio)
  {
    var q := Cond(s, Other(c.side));
    if q != [] { FedFront(q, t, c.prio); }
  }

  lemma AdvanceFed(s: Pipe, t: Tid, p: Phase, c: Call)
    requires Safe(s, p, c)
    ensures AllFed(s, Do(s, t, p, c), t, c.prio)
  {
    match p
    case Test => TestFed(s, t, c);
    case AtSignal(n) => SignalFed(s, t, c, n);
    case Copy(n, i) => assert SameQueues(s, CopyStep(s, t, c, n, i));
    case Loop(n) => FedAcquire(s.mon, t, c.prio, false);
    case AtMutex => FedAcquire(s.mon, t, c.prio, false);
    case Awake(_) => FedAcquire(s.mon, t, c.prio, false);
    case AtLeave(_) => FedRelease(s.mon, t, c.prio);
    case AtUnlock => FedRelease(Mut(s, c.side), t, c.prio);
    case _ =>
  }

  lemma StepFed(s: Pipe, a: Action)
    requires Inv(s) && Enabled(s, a) && !a.Prioritize?
    ensures AllFed(s, Step(s, a), a.t, ActsWith(s, a))
  {
    match a
    case Begin(t, c) => BeginFed(s, t, c);
    case TimeOut(t) => TimeOutFed(s, t, TaskOf(s, t).phase, TaskOf(s, t).call);
    case Advance(t) =>
      assert CallInv(s, t);
      AdvanceIsSafe(s, t);
      AdvanceFed(s, t, TaskOf(s, t).phase, TaskOf(s, t).call);
  }

  /** Only a change of priority, or a new call, changes the priority of a task in a call. */
  lemma PriceStays(s: Pipe, a: Action, u: Tid)
    requires Inv(s) && Enabled(s, a) && !a.Prioritize?
    ensures u != a.t ==> PrioOf(Step(s, a), u) == PrioOf(s, u)
    ensures u == a.t && TaskOf(Step(s, a), u).Busy? ==> PrioOf(Step(s, a), u) == ActsWith(s, a)
  {
    if u != a.t {
      OtherTask(s, a, u);
    } else if !a.Begin? {
      StepObeys(s, a, u, TaskOf(s, u).call);
    }
  }

  lemma StepKeepsPrices(s: Pipe, a: Action)
    requires Inv(s) && Enabled(s, a) && Prices(s)
    ensures Prices(Step(s, a))
  {
    if a.Prioritize? {
      PriorityPrices(s, a.t, a.prio);
    } else {
      var s', t, p := Step(s, a), a.t, ActsWith(s, a);
      StepKeepsInv(s, a);
      StepKeepsKind(s, a);
      StepFed(s, a);
      forall u: Tid | u != t ensures PrioOf(s', u) == PrioOf(s, u) { PriceStays(s, a, u); }
      PriceStays(s, a, t);
      if TaskOf(s, t).Idle? { IdleIsNotQueued(s, t); }
      if TaskOf(s', t).Idle? { IdleIsNotQueued(s', t); }
      FedKeepsPrices(s, s', t, p);
    }
  }

  lemma FedKeepsPrices(s: Pipe, s': Pipe, t: Tid, p: nat)
    requires Prices(s) && AllFed(s, s', t, p) && SameKind(s, s')
    requires forall u: Tid :: u != t ==> PrioOf(s', u) == PrioOf(s, u)
    requires PrioOf(s, t) == p || NotQueued(s, t)
    requires PrioOf(s', t) == p || NotQueued(s', t)
    ensures Prices(s')
  {
    var f, f' := PricesOf(s), PricesOf(s');
    PricedFed(s.mon.queue, s'.mon.queue, t, p, f, f');
    PricedFed(s.condGet, s'.condGet, t, p, f, f');
    PricedFed(s.condPut, s'.condPut, t, p, f, f');
    if Serial(s, Get) { PricedFed(s.mutGet.queue, s'.mutGet.queue, t, p, f, f'); }
    if Serial(s, Put) { PricedFed(s.mutPut.queue, s'.mutPut.queue, t, p, f, f'); }
  }

  lemma PriorityPrices(s: Pipe, t: Tid, prio: nat)
    requires Inv(s) && Prices(s)
    ensures Prices(PriorityStep(s, t, prio))
  {
    var s' := PriorityStep(s, t, prio);
    var f, f' := PricesOf(s), PricesOf(s');
    PriorityFrame(s, t, prio, t);
    forall u: Tid ensures u != t ==> f'(u) == f(u) {
      if u != t { PriorityOther(s, t, prio, u); }
    }
    PriorityCall(s, t, prio);
    if TaskOf(s, t).Idle? { IdleIsNotQueued(s, t); }
    PricedRequeue(s.mon.queue, t, prio, s.mon.clock, f, f');
    PricedRequeue(s.condGet, t, prio, s.clock, f, f');
    PricedRequeue(s.condPut, t, prio, s.clock, f, f');
    if Serial(s, Get) { PricedRequeue(s.mutGet.queue, t, prio, s.mutGet.clock, f, f'); }
    if Serial(s, Put) { PricedRequeue(s.mutPut.queue, t, prio, s.mutPut.clock, f, f'); }
  }

  lemma PriorityOther(s: Pipe, t: Tid, prio: nat, u: Tid)
    requires u != t
    ensures TaskOf(PriorityStep(s, t, prio), u) == TaskOf(s, u)
  {
  }

  lemma {:induction false} RunKeepsPrices(s: Pipe, acts: seq<Action>)
    requires Inv(s) && Possible(s, acts) && Prices(s)
    ensures Prices(Run(s, acts)) && Inv(Run(s, acts))
    decreases acts
  {
    if acts != [] {
      StepKeepsInv(s, acts[0]);
      StepKeepsPrices(s, acts[0]);
      RunKeepsPrices(Step(s, acts[0]), acts[1..]);
    }
  }

  lemma ReachablePrices(s: Pipe)
    requires Reachable(s)
    ensures Inv(s) && Prices(s)
  {
    var size: nat, accessGet: Access, accessPut: Access, acts: seq<Action> :|
      size > 0 && Possible(Init(size, accessGet, accessPut), acts) && s == Run(Init(size, accessGet, accessPut), acts);
    InitIsGood(size, accessGet, accessPut);
    RunKeepsPrices(Init(size, accessGet, accessPut), acts);
  }

  /** The monitor goes from its holder to a waiter of the highest priority there is among those that wait for it. */
  lemma MonitorGoesToMostUrgent(s: Pipe, t: Tid, c: Call, n: nat, u: Tid)
    requires Reachable(s) && TaskOf(s, t) == Busy(AtLeave(n), c) && u != t && MonZone(TaskOf(s, u)) == Gate
    ensures var w := Step(s, Advance(t)).mon.holder;
      w.Some? && w.value != t && MonZone(TaskOf(s, w.value)) == Gate && PrioOf(s, u) <= PrioOf(s, w.value)
  {
    ReachablePrices(s);
    assert CallInv(s, t);
    AdvanceIsSafe(s, t);
    assert MonZones(s)(t) == Inside && MonZones(s)(u) == Gate;
    assert u in Names(s.mon.queue);
    ServedIsMostUrgent(s.mon.queue, s.mon.clock, PricesOf(s), u);
    assert MonZones(s)(Last(s.mon.queue).who) == Gate;
  }

  /** The mutex of a side likewise. */
  lemma MutexGoesToMostUrgent(s: Pipe, t: Tid, c: Call, u: Tid)
    requires Reachable(s) && Serial(s, c.side) && TaskOf(s, t) == Busy(AtUnlock, c)
    requires u != t && MutZone(TaskOf(s, u), c.side) == Gate
    ensures var w := Mut(Step(s, Advance(t)), c.side).holder;
      w.Some? && w.value != t && MutZone(TaskOf(s, w.value), c.side) == Gate && PrioOf(s, u) <= PrioOf(s, w.value)
  {
    ReachablePrices(s);
    assert CallInv(s, t);
    AdvanceIsSafe(s, t);
    var l := Mut(s, c.side);
    assert MutZones(s, c.side)(t) == Inside && MutZones(s, c.side)(u) == Gate;
    assert u in Names(l.queue);
    ServedIsMostUrgent(l.queue, l.clock, PricesOf(s), u);
    assert MutZones(s, c.side)(Last(l.queue).who) == Gate;
  }

  /** A signal wakes one sleeper of the other side, of the highest priority there is among them. */
  lemma SignalWakesMostUrgent(s: Pipe, t: Tid, c: Call, n: nat, u: Tid)
    requires Reachable(s) && TaskOf(s, t) == Busy(AtSignal(n), c) && Sleeping(TaskOf(s, u), Other(c.side))
    ensures exists w :: Sleeping(TaskOf(s, w), Other(c.side)) && PrioOf(s, u) <= PrioOf(s, w) && OnlyWakes(s, t, w)
  {
    ReachablePrices(s);
    assert CallInv(s, t);
    AdvanceIsSafe(s, t);
    var q := Cond(s, Other(c.side));
    assert u in Names(q);
    ServedIsMostUrgent(q, s.clock, PricesOf(s), u);
    var w := Last(q).who;
    assert Sleeping(TaskOf(s, w), Other(c.side));
    WokenIs(s, t, c, n, w);
    assert OnlyWakes(s, t, w);
  }

  /** The next statement of `t` wakes `w` and leaves everybody else where it is. */
  ghost predicate OnlyWakes(s: Pipe, t: Tid, w: Tid) {
    && TaskOf(s, w).Busy? && TaskOf(Step(s, Advance(t)), w) == Busy(Awake(true), TaskOf(s, w).call)
    && forall v :: v != w && v != t ==> TaskOf(Step(s, Advance(t)), v) == TaskOf(s, v)
  }

  lemma WokenIs(s: Pipe, t: Tid, c: Call, n: nat, w: Tid)
    requires TaskOf(s, t) == Busy(AtSignal(n), c) && Sleeping(TaskOf(s, w), Other(c.side))
    requires Cond(s, Other(c.side)) != [] && Last(Cond(s, Other(c.side))).who == w
    ensures TaskOf(SignalStep(s, t, c, n), w) == Busy(Awake(true), TaskOf(s, w).call)
    ensures forall v :: v != w && v != t ==> TaskOf(SignalStep(s, t, c, n), v) == TaskOf(s, v)
  {
  }
}
