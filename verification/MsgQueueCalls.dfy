/**
 What a call on mtask2's message queue does for its caller: it answers true exactly when it has moved its message; and
 the order of service: whoever waits is queued with its priority, and the most urgent is served.
 */
module MsgQueueCalls {
  import opened Base
  import opened WaitOrder
  import Semaphores
  import opened Locks
  import opened MsgQueues
  import Mutexes

  // ----- what a call answers -----

  /** What the action makes its task's call return, if the call ends with it. */
  function Answer(s: Queue, a: Action): Option<bool> {
    match a
    case Begin(t, c) => if Serial(s, c.side) && Use(s, c.side).holder.Some? && c.limit.Never? then Some(false) else None
    case TimeOut(t) => if TaskOf(s, t).Busy? && TaskOf(s, t).phase.AtMutex? then Some(false) else None
    case Prioritize(_, _) => None
    case Advance(t) =>
      if TaskOf(s, t).Busy? && TaskOf(s, t).phase.AtUnlock? then Some(TaskOf(s, t).phase.ok) else None
  }

  /** The call of a task that has made none. */
  const NOBODY := Call(Get, [], Mutexes.Limit.Never, 0)

  /** The messages `t` has copied since its call began, `n` of them before the action. */
  function CopiedNow(s: Queue, a: Action, t: Tid, n: nat): nat {
    if a.Begin? && a.t == t then 0
    else if a == Advance(t) && TaskOf(s, t).Busy? && TaskOf(s, t).phase.Copy? then n + 1
    else n
  }

  function Copied(s: Queue, acts: seq<Action>, t: Tid, n: nat): nat
    decreases acts
  {
    if acts == [] then n else Copied(Step(s, acts[0]), acts[1..], t, CopiedNow(s, acts[0], t, n))
  }

  /** How many messages a task in the middle of its call has copied. */
  ghost predicate HasCopied(k: Task, n: nat) {
    k.Busy? ==>
      n == match k.phase
           case Bump => 1
           case Wrap => 1
           case AtSignal => 1
           case AtUnlock(ok) => One(ok)
           case _ => 0
  }

  /** Calls without patience do not sleep, calls with unlimited patience do not give up. */
  ghost predicate Patient(s: Queue, t: Tid) {
    var k := TaskOf(s, t);
    k.Busy? ==>
      && (k.phase.Queued? ==> !k.call.limit.Never?)
      && (k.phase.AtMutex? && k.call.limit.Never? ==> Use(s, k.call.side).holder == Some(t))
      && (k.phase == AtUnlock(false) ==> !k.call.limit.Forever?)
  }

  /** The message of a task that has copied is the latest one that went through its side. */
  ghost predicate HoldsLatest(s: Queue, t: Tid) {
    var k := TaskOf(s, t);
    k.Busy? && (k.phase.Bump? || k.phase.Wrap? || k.phase.AtSignal? || k.phase == AtUnlock(true))
    ==> var q := if k.call.side.Get? then s.received else s.sent; q != [] && k.call.msg == q[|q|-1]
  }

  /** Other tasks do not notice a statement of `t`, but for the one that a signal wakes. */
  lemma OtherTask(s: Queue, a: Action, u: Tid)
    requires Inv(s) && Enabled(s, a) && u != a.t
    ensures TaskOf(Step(s, a), u) == TaskOf(s, u)
      || (a.Advance? && TaskOf(s, a.t).phase.AtSignal? && TaskOf(s, u).Busy? && TaskOf(s, u).phase.Queued?
          && TaskOf(Step(s, a), u) == Busy(Copy, TaskOf(s, u).call))
  {
    if a.Advance? {
      var c := TaskOf(s, a.t).call;
      if TaskOf(s, a.t).phase.AtSignal? {
        WokenSleeps(s, Other(c.side));
        SignalOther(s, a.t, c, u);
      } else {
        AdvanceOther(s, a.t, u);
      }
    }
  }

  lemma SignalOther(s: Queue, t: Tid, c: Call, u: Tid)
    requires TaskOf(s, t) == Busy(AtSignal, c) && u != t
    requires var q := SemOf(s, Other(c.side)).queue; q != [] ==> Sleeping(TaskOf(s, Last(q).who), Other(c.side))
    ensures TaskOf(SignalStep(s, t, c), u) == TaskOf(s, u)
      || (TaskOf(s, u).Busy? && TaskOf(s, u).phase.Queued?
          && TaskOf(SignalStep(s, t, c), u) == Busy(Copy, TaskOf(s, u).call))
  {
  }

  lemma AdvanceOther(s: Queue, t: Tid, u: Tid)
    requires TaskOf(s, t).Busy? && !TaskOf(s, t).phase.AtSignal? && u != t
    ensures TaskOf(Step(s, Advance(t)), u) == TaskOf(s, u)
  {
  }

  /** What becomes of the task that executes a statement. */
  lemma OwnTask(s: Queue, t: Tid, p: Phase, c: Call)
    requires Inv(s) && Enabled(s, Advance(t)) && TaskOf(s, t) == Busy(p, c)
    ensures var k := TaskOf(Step(s, Advance(t)), t);
      match p
      case AtMutex => k == Busy(AtWait, c)
      case AtWait =>
        k == Busy(if SemOf(s, c.side).value > 0 then Copy else if c.limit.Never? then AtUnlock(false) else Queued, c)
      case Copy => k.Busy? && k.phase.Bump? && k.call == c.(msg := k.call.msg)
      case Bump => k == Busy(Wrap, c)
      case Wrap => k == Busy(AtSignal, c)
      case AtSignal => k == Busy(AtUnlock(true), c)
      case AtUnlock(_) => k.Idle?
      case Queued => true
  {
    if p.AtSignal? { WokenSleeps(s, Other(c.side)); }
  }

  lemma StepCopied(s: Queue, a: Action, u: Tid, n: nat)
    requires Inv(s) && Enabled(s, a) && HasCopied(TaskOf(s, u), n)
    ensures HasCopied(TaskOf(Step(s, a), u), CopiedNow(s, a, u, n))
  {
    if u != a.t {
      OtherTask(s, a, u);
    } else if a.Advance? {
      OwnTask(s, a.t, TaskOf(s, a.t).phase, TaskOf(s, a.t).call);
    } else if a.Prioritize? {
      PriorityTask(s, a.t, a.prio, u);
    }
  }

  /** The mutex of a side keeps its holder, unless its holder leaves it. */
  lemma HolderStays(s: Queue, a: Action, side: Side)
    requires Inv(s) && Enabled(s, a) && Use(s, side).holder.Some?
    requires a.Advance? && TaskOf(s, a.t).phase.AtUnlock? ==> TaskOf(s, a.t).call.side != side || !Serial(s, side)
    ensures Use(Step(s, a), side).holder == Use(s, side).holder
  {
    if a.Prioritize? { PriorityFrame(s, a.t, a.prio); }
  }

  lemma StepPatient(s: Queue, a: Action, u: Tid)
    requires Inv(s) && Enabled(s, a) && Patient(s, u)
    ensures Patient(Step(s, a), u)
  {
    StepKeepsAccess(s, a);
    if TaskOf(s, u).Busy? && TaskOf(s, u).phase.AtMutex? && TaskOf(s, u).call.limit.Never? {
      GateStays(s, a, u, TaskOf(s, u).call);
    }
    if u != a.t {
      OtherTask(s, a, u);
    } else if a.Advance? {
      OwnTask(s, a.t, TaskOf(s, a.t).phase, TaskOf(s, a.t).call);
    } else if a.Prioritize? {
      PriorityTask(s, a.t, a.prio, u);
    }
  }

  /** A task at the gate of a mutex that is its own keeps it. */
  lemma GateStays(s: Queue, a: Action, u: Tid, c: Call)
    requires Inv(s) && Enabled(s, a) && TaskOf(s, u) == Busy(AtMutex, c) && Use(s, c.side).holder == Some(u)
    ensures Use(Step(s, a), c.side).holder == Some(u)
  {
    AtMutexIsSerial(s, u, c);
    if a.Advance? && TaskOf(s, a.t).phase.AtUnlock? && TaskOf(s, a.t).call.side == c.side {
      InsideIsUser(s, a.t, TaskOf(s, a.t).phase, TaskOf(s, a.t).call);
    }
    HolderStays(s, a, c.side);
  }

  /** The side whose stream the action extends, if any. */
  lemma OnlyCopiesExtend(s: Queue, a: Action)
    requires Enabled(s, a) && !(a.Advance? && TaskOf(s, a.t).phase.Copy?)
    ensures Step(s, a).sent == s.sent && Step(s, a).received == s.received
  {
    match a
    case Prioritize(t, prio) => PriorityFrame(s, t, prio);
    case Advance(t) => AdvanceStreams(s, t, TaskOf(s, t).phase, TaskOf(s, t).call);
    case _ =>
  }

  lemma AdvanceStreams(s: Queue, t: Tid, p: Phase, c: Call)
    requires !p.Copy?
    ensures Do(s, t, p, c).sent == s.sent && Do(s, t, p, c).received == s.received
  {
    if p.AtSignal? { SignalStreams(s, t, c); }
  }

  lemma SignalStreams(s: Queue, t: Tid, c: Call)
    ensures SignalStep(s, t, c).sent == s.sent && SignalStep(s, t, c).received == s.received
  {
  }

  lemma StepLatest(s: Queue, a: Action, u: Tid)
    requires Inv(s) && Counts(s) && BothSerial(s) && Enabled(s, a) && HoldsLatest(s, u)
    ensures HoldsLatest(Step(s, a), u)
  {
    if a.Advance? && TaskOf(s, a.t).phase.Copy? {
      CopyLatest(s, a.t, TaskOf(s, a.t).call, u);
    } else {
      OnlyCopiesExtend(s, a);
      QuietLatest(s, a, u);
      StreamsLatest(s, Step(s, a), u);
    }
  }

  /** A task that has copied by now had copied before, the same message. */
  predicate StillCopied(k: Task, k': Task) {
    k'.Busy? && (k'.phase.Bump? || k'.phase.Wrap? || k'.phase.AtSignal? || k'.phase == AtUnlock(true))
    ==>
      && k.Busy? && (k.phase.Bump? || k.phase.Wrap? || k.phase.AtSignal? || k.phase == AtUnlock(true))
      && k'.call.side == k.call.side && k'.call.msg == k.call.msg
  }

  lemma StreamsLatest(s: Queue, s': Queue, u: Tid)
    requires HoldsLatest(s, u) && StillCopied(TaskOf(s, u), TaskOf(s', u))
    requires s'.sent == s.sent && s'.received == s.received
    ensures HoldsLatest(s', u)
  {
  }

  lemma QuietLatest(s: Queue, a: Action, u: Tid)
    requires Inv(s) && Enabled(s, a) && !(a.Advance? && TaskOf(s, a.t).phase.Copy?)
    ensures StillCopied(TaskOf(s, u), TaskOf(Step(s, a), u))
  {
    if u != a.t {
      OtherTask(s, a, u);
    } else if a.Advance? {
      OwnTask(s, a.t, TaskOf(s, a.t).phase, TaskOf(s, a.t).call);
    } else if a.Prioritize? {
      PriorityTask(s, a.t, a.prio, u);
    }
  }

  lemma CopyLatest(s: Queue, t: Tid, c: Call, u: Tid)
    requires Inv(s) && Counts(s) && BothSerial(s) && TaskOf(s, t) == Busy(Copy, c) && HoldsLatest(s, u)
    ensures HoldsLatest(CopyStep(s, t, c), u)
  {
    CarryStages(s, t, Copy, c);
    InsideIsUser(s, t, Copy, c);
    if u != t && TaskOf(s, u).Busy? && TaskOf(s, u).call.side == c.side && !TaskOf(s, u).phase.AtMutex? {
      InsideIsUser(s, u, TaskOf(s, u).phase, TaskOf(s, u).call);
    }
    CopiedIsLatest(s, t, c, u);
  }

  lemma CopiedIsLatest(s: Queue, t: Tid, c: Call, u: Tid)
    requires TaskOf(s, t) == Busy(Copy, c) && PointerOf(s, c.side) < |s.buf| && HoldsLatest(s, u)
    requires u != t && TaskOf(s, u).Busy? ==> TaskOf(s, u).call.side != c.side || TaskOf(s, u).phase.AtMutex?
    ensures HoldsLatest(CopyStep(s, t, c), u)
  {
  }

  /** What the caller asked for, with its priority as it has been set since. */
  function AskedNow(a: Action, t: Tid, c: Call): Call {
    if a.t != t then c
    else match a
      case Begin(_, c') => c'
      case Prioritize(_, prio) => c.(prio := prio)
      case _ => c
  }

  function Asked(acts: seq<Action>, t: Tid, c: Call): Call
    decreases acts
  {
    if acts == [] then c else Asked(acts[1..], t, AskedNow(acts[0], t, c))
  }

  /** A task in the middle of a call does what it was asked for. */
  predicate Obeys(k: Task, c: Call) {
    k.Busy? ==>
      && k.call.side == c.side && k.call.limit == c.limit && k.call.prio == c.prio
      && (c.side.Put? ==> k.call.msg == c.msg)
  }

  lemma StepObeys(s: Queue, a: Action, u: Tid, c0: Call)
    requires Inv(s) && Enabled(s, a) && Obeys(TaskOf(s, u), c0)
    ensures Obeys(TaskOf(Step(s, a), u), AskedNow(a, u, c0))
  {
    if u != a.t {
      OtherTask(s, a, u);
    } else if a.Prioritize? {
      PriorityCall(s, u, a.prio);
    } else if a.Advance? {
      var p, c := TaskOf(s, u).phase, TaskOf(s, u).call;
      OwnTask(s, u, p, c);
      if p.Copy? { CopyKeepsCall(s, u, c); }
    }
  }

  lemma CopyKeepsCall(s: Queue, t: Tid, c: Call)
    ensures c.side.Put? ==> TaskOf(CopyStep(s, t, c), t) == Busy(Bump, c)
  {
  }

  lemma PriorityCall(s: Queue, t: Tid, prio: nat)
    ensures TaskOf(s, t).Busy? ==>
      TaskOf(PriorityStep(s, t, prio), t) == Busy(TaskOf(s, t).phase, TaskOf(s, t).call.(prio := prio))
  {
  }

  lemma {:induction false} RunAnswers(s: Queue, acts: seq<Action>, t: Tid, n: nat, c: Call)
    requires Inv(s) && (BothSerial(s) ==> Counts(s)) && Possible(s, acts) && Obeys(TaskOf(s, t), c)
    requires HasCopied(TaskOf(s, t), n) && Patient(s, t) && (BothSerial(s) ==> HoldsLatest(s, t))
    ensures var s' := Run(s, acts);
      && HasCopied(TaskOf(s', t), Copied(s, acts, t, n)) && Patient(s', t) && Obeys(TaskOf(s', t), Asked(acts, t, c))
      && (BothSerial(s) ==> BothSerial(s') && HoldsLatest(s', t))
    decreases acts
  {
    if acts != [] {
      var a := acts[0];
      StepKeepsInv(s, a);
      StepKeepsAccess(s, a);
      StepCopied(s, a, t, n);
      StepPatient(s, a, t);
      if BothSerial(s) {
        StepKeepsCounts(s, a);
        StepLatest(s, a, t);
      }
      StepObeys(s, a, t, c);
      RunAnswers(Step(s, a), acts[1..], t, CopiedNow(s, a, t, n), AskedNow(a, t, c));
    }
  }

  /**
   Over every run a call answers true exactly when it has copied one message, and false exactly when it has copied
   none.  A call without a time limit never answers false.  Every call is the one its caller asked for.
   */
  lemma AnswerIsTrue(max: nat, blank: Msg, accessGet: Access, accessPut: Access, acts: seq<Action>, a: Action, ok: bool)
    requires max > 0 && Possible(Init(max, blank, accessGet, accessPut), acts)
    requires Enabled(Run(Init(max, blank, accessGet, accessPut), acts), a)
    requires Answer(Run(Init(max, blank, accessGet, accessPut), acts), a) == Some(ok)
    ensures var s0 := Init(max, blank, accessGet, accessPut);
      var s := Run(s0, acts);
      && CopiedNow(s, a, a.t, Copied(s0, acts, a.t, 0)) == (if ok then 1 else 0)
      && (a.Begin? ==> Step(s, a) == s && !a.call.limit.Forever?)
      && (!a.Begin? ==> TaskOf(Step(s, a), a.t).Idle? && (TaskOf(s, a.t).call.limit.Forever? ==> ok))
      && Obeys(TaskOf(s, a.t), Asked(acts, a.t, NOBODY))
  {
    var s0 := Init(max, blank, accessGet, accessPut);
    InitInv(max, blank, accessGet, accessPut);
    RunAnswers(s0, acts, a.t, 0, NOBODY);
  }

  /** What holds of a call in every reachable state. */
  lemma ReachableAnswers(s: Queue, t: Tid)
    requires Reachable(s)
    ensures Patient(s, t) && (BothSerial(s) ==> HoldsLatest(s, t))
  {
    var max: nat, blank: Msg, accessGet: Access, accessPut: Access, acts: seq<Action> :|
      max > 0 && Possible(Init(max, blank, accessGet, accessPut), acts)
        && s == Run(Init(max, blank, accessGet, accessPut), acts);
    InitInv(max, blank, accessGet, accessPut);
    RunKeepsInv(Init(max, blank, accessGet, accessPut), acts);
    RunAnswers(Init(max, blank, accessGet, accessPut), acts, t, 0, NOBODY);
  }

  /** With both sides serialized, a get that answers true has the latest message received, and a put the latest sent. */
  lemma AnswerHasTheMessage(s: Queue, t: Tid, c: Call)
    requires Reachable(s) && BothSerial(s) && TaskOf(s, t) == Busy(AtUnlock(true), c)
    ensures c.side.Get? ==> s.received != [] && c.msg == s.received[|s.received|-1]
    ensures c.side.Put? ==> s.sent != [] && c.msg == s.sent[|s.sent|-1]
  {
    ReachableAnswers(s, t);
  }

  /** A call without patience never sleeps in a semaphore, and waits for no mutex. */
  lemma ImpatientNeverSleeps(s: Queue, t: Tid)
    requires Reachable(s) && TaskOf(s, t).Busy? && TaskOf(s, t).call.limit.Never?
    ensures !TaskOf(s, t).phase.Queued?
    ensures TaskOf(s, t).phase.AtMutex? ==> Enabled(s, Advance(t))
  {
    ReachableAnswers(s, t);
  }

  // ----- waiters are queued with their priority, and the most urgent is served -----

  function PrioOf(s: Queue, t: Tid): nat { if TaskOf(s, t).Busy? then TaskOf(s, t).call.prio else 0 }

  ghost function PricesOf(s: Queue): Tid -> nat { (t: Tid) => PrioOf(s, t) }

  ghost predicate Prices(s: Queue) {
    && Priced(s.semGet.queue, PricesOf(s)) && Priced(s.semPut.queue, PricesOf(s))
    && (Serial(s, Get) ==> Priced(s.useGet.queue, PricesOf(s)))
    && (Serial(s, Put) ==> Priced(s.usePut.queue, PricesOf(s)))
  }

  ghost predicate NotQueued(s: Queue, t: Tid) {
    && t !in Names(s.semGet.queue) && t !in Names(s.semPut.queue)
    && (Serial(s, Get) ==> t !in Names(s.useGet.queue))
    && (Serial(s, Put) ==> t !in Names(s.usePut.queue))
  }

  /** A task outside any call is in no queue. */
  lemma IdleIsNotQueued(s: Queue, t: Tid)
    requires Inv(s) && TaskOf(s, t).Idle?
    ensures NotQueued(s, t)
  {
    assert Serial(s, Get) ==> Zones(s, Get)(t) == Away;
    assert Serial(s, Put) ==> Zones(s, Put)(t) == Away;
    assert !Sleeping(TaskOf(s, t), Get) && !Sleeping(TaskOf(s, t), Put);
  }

  /** The priority a task acts with. */
  function ActsWith(s: Queue, a: Action): nat { if a.Begin? then a.call.prio else PrioOf(s, a.t) }

  /** Every queue takes in the task that acts, with its priority, or nobody. */
  ghost predicate AllFed(s: Queue, s': Queue, t: Tid, p: nat) {
    && Fed(s.semGet.queue, s'.semGet.queue, t, p) && Fed(s.semPut.queue, s'.semPut.queue, t, p)
    && Fed(s.useGet.queue, s'.useGet.queue, t, p) && Fed(s.usePut.queue, s'.usePut.queue, t, p)
  }

  lemma WaitFed(s: Queue, t: Tid, c: Call)
    ensures AllFed(s, WaitStep(s, t, c), t, c.prio)
  {
    var m := SemOf(s, c.side);
    FedInsert(m.queue, Entry(t, c.prio, m.clock));
  }

  lemma SignalFed(s: Queue, t: Tid, c: Call)
    ensures AllFed(s, SignalStep(s, t, c), t, c.prio)
  {
    var q := SemOf(s, Other(c.side)).queue;
    if q != [] { FedFront(q, t, c.prio); }
  }

  lemma AdvanceFed(s: Queue, t: Tid, p: Phase, c: Call)
    ensures AllFed(s, Do(s, t, p, c), t, c.prio)
  {
    match p
    case AtWait => WaitFed(s, t, c);
    case AtSignal => SignalFed(s, t, c);
    case AtUnlock(_) => FedRelease(Use(s, c.side), t, c.prio);
    case _ =>
  }

  lemma StepFed(s: Queue, a: Action)
    requires Enabled(s, a) && !a.Prioritize?
    ensures AllFed(s, Step(s, a), a.t, ActsWith(s, a))
  {
    match a
    case Begin(t, c) => FedAcquire(Use(s, c.side), t, c.prio, false);
    case TimeOut(t) =>
      var c := TaskOf(s, t).call;
      FedWithout(SemOf(s, c.side).queue, t, t, c.prio);
      FedGiveUp(Use(s, c.side), t, t, c.prio);
    case Advance(t) => AdvanceFed(s, t, TaskOf(s, t).phase, TaskOf(s, t).call);
  }

  /** Only a change of priority, or a new call, changes the priority of a task in a call. */
  lemma PriceStays(s: Queue, a: Action, u: Tid)
    requires Inv(s) && Enabled(s, a) && !a.Prioritize?
    ensures u != a.t ==> PrioOf(Step(s, a), u) == PrioOf(s, u)
    ensures u == a.t && TaskOf(Step(s, a), u).Busy? ==> PrioOf(Step(s, a), u) == ActsWith(s, a)
  {
    if u != a.t {
      OtherTask(s, a, u);
    } else if !a.Begin? {
      StepObeys(s, a, u, TaskOf(s, u).call);
    }
  }

  lemma StepKeepsPrices(s: Queue, a: Action)
    requires Inv(s) && Enabled(s, a) && Prices(s)
    ensures Prices(Step(s, a))
  {
    if a.Prioritize? {
      PriorityPrices(s, a.t, a.prio);
    } else {
      var s', t, p := Step(s, a), a.t, ActsWith(s, a);
      StepKeepsInv(s, a);
      StepKeepsAccess(s, a);
      StepFed(s, a);
      forall u: Tid | u != t ensures PrioOf(s', u) == PrioOf(s, u) { PriceStays(s, a, u); }
      PriceStays(s, a, t);
      if TaskOf(s, t).Idle? { IdleIsNotQueued(s, t); }
      if TaskOf(s', t).Idle? { IdleIsNotQueued(s', t); }
      FedKeepsPrices(s, s', t, p);
    }
  }

  lemma FedKeepsPrices(s: Queue, s': Queue, t: Tid, p: nat)
    requires Prices(s) && AllFed(s, s', t, p) && SameAccess(s, s')
    requires forall u: Tid :: u != t ==> PrioOf(s', u) == PrioOf(s, u)
    requires PrioOf(s, t) == p || NotQueued(s, t)
    requires PrioOf(s', t) == p || NotQueued(s', t)
    ensures Prices(s')
  {
    var f, f' := PricesOf(s), PricesOf(s');
    PricedFed(s.semGet.queue, s'.semGet.queue, t, p, f, f');
    PricedFed(s.semPut.queue, s'.semPut.queue, t, p, f, f');
    if Serial(s, Get) { PricedFed(s.useGet.queue, s'.useGet.queue, t, p, f, f'); }
    if Serial(s, Put) { PricedFed(s.usePut.queue, s'.usePut.queue, t, p, f, f'); }
  }

  lemma PriorityPrices(s: Queue, t: Tid, prio: nat)
    requires Inv(s) && Prices(s)
    ensures Prices(PriorityStep(s, t, prio))
  {
    var s' := PriorityStep(s, t, prio);
    PriorityFrame(s, t, prio);
    forall u: Tid | u != t ensures PrioOf(s', u) == PrioOf(s, u) { PriorityOther(s, t, prio, u); }
    PriorityCall(s, t, prio);
    if TaskOf(s, t).Idle? { IdleIsNotQueued(s, t); }
    SemPrices(s, t, prio, Get);
    SemPrices(s, t, prio, Put);
    UsePrices(s, t, prio, Get);
    UsePrices(s, t, prio, Put);
  }

  lemma SemPrices(s: Queue, t: Tid, prio: nat, side: Side)
    requires var s' := PriorityStep(s, t, prio);
      && (forall u: Tid :: u != t ==> PrioOf(s', u) == PrioOf(s, u))
      && (PrioOf(s', t) == prio || t !in Names(SemOf(s, side).queue))
    requires Semaphores.ValidSem(SemOf(s, side)) && Priced(SemOf(s, side).queue, PricesOf(s))
    ensures Priced(SemOf(PriorityStep(s, t, prio), side).queue, PricesOf(PriorityStep(s, t, prio)))
  {
    var m := SemOf(s, side);
    PricedRequeue(m.queue, t, prio, m.clock, PricesOf(s), PricesOf(PriorityStep(s, t, prio)));
    assert SemOf(PriorityStep(s, t, prio), side).queue == Requeue(m.queue, t, prio, m.clock);
  }

  lemma UsePrices(s: Queue, t: Tid, prio: nat, side: Side)
    requires var s' := PriorityStep(s, t, prio);
      && (forall u: Tid :: u != t ==> PrioOf(s', u) == PrioOf(s, u))
      && (PrioOf(s', t) == prio || !Serial(s, side) || t !in Names(Use(s, side).queue))
    requires Serial(s, side) ==> ValidLock(Use(s, side)) && Priced(Use(s, side).queue, PricesOf(s))
    ensures Serial(s, side) ==>
      Priced(Use(PriorityStep(s, t, prio), side).queue, PricesOf(PriorityStep(s, t, prio)))
  {
    if Serial(s, side) {
      var l := Use(s, side);
      PricedRequeue(l.queue, t, prio, l.clock, PricesOf(s), PricesOf(PriorityStep(s, t, prio)));
      assert Use(PriorityStep(s, t, prio), side).queue == Requeue(l.queue, t, prio, l.clock);
    }
  }

  lemma PriorityOther(s: Queue, t: Tid, prio: nat, u: Tid)
    requires u != t
    ensures TaskOf(PriorityStep(s, t, prio), u) == TaskOf(s, u)
  {
  }

  lemma {:induction false} RunKeepsPrices(s: Queue, acts: seq<Action>)
    requires Inv(s) && Possible(s, acts) && Prices(s)
    ensures Prices(Run(s, acts)) && Inv(Run(s, acts))
    decreases acts
  {
    if acts != [] {
      StepKeepsInv(s, acts[0]);
      StepKeepsPrices(s, acts[0]);
      RunKeepsPrices(Step(s, acts[0]), acts[1..]);
    }
  }

  lemma ReachablePrices(s: Queue)
    requires Reachable(s)
    ensures Inv(s) && Prices(s)
  {
    var max: nat, blank: Msg, accessGet: Access, accessPut: Access, acts: seq<Action> :|
      max > 0 && Possible(Init(max, blank, accessGet, accessPut), acts)
        && s == Run(Init(max, blank, accessGet, accessPut), acts);
    InitInv(max, blank, accessGet, accessPut);
    RunKeepsPrices(Init(max, blank, accessGet, accessPut), acts);
  }

  /** A token passed on goes to a sleeper of the highest priority there is on the other side. */
  lemma TokenGoesToMostUrgent(s: Queue, t: Tid, c: Call, u: Tid)
    requires Reachable(s) && TaskOf(s, t) == Busy(AtSignal, c) && Sleeping(TaskOf(s, u), Other(c.side))
    ensures exists w :: Sleeping(TaskOf(s, w), Other(c.side)) && PrioOf(s, u) <= PrioOf(s, w) && OnlyWakes(s, t, w)
  {
    ReachablePrices(s);
    var m := SemOf(s, Other(c.side));
    assert u in Names(m.queue);
    ServedIsMostUrgent(m.queue, m.clock, PricesOf(s), u);
    var w := Last(m.queue).who;
    assert Sleeping(TaskOf(s, w), Other(c.side));
    WokenIs(s, t, c, w);
    assert OnlyWakes(s, t, w);
  }

  /** The next statement of `t` gives `w` a token and leaves everybody else where it is. */
  ghost predicate OnlyWakes(s: Queue, t: Tid, w: Tid) {
    && TaskOf(s, w).Busy? && TaskOf(Step(s, Advance(t)), w) == Busy(Copy, TaskOf(s, w).call)
    && forall v :: v != w && v != t ==> TaskOf(Step(s, Advance(t)), v) == TaskOf(s, v)
  }

  lemma WokenIs(s: Queue, t: Tid, c: Call, w: Tid)
    requires TaskOf(s, t) == Busy(AtSignal, c) && Sleeping(TaskOf(s, w), Other(c.side))
    requires SemOf(s, Other(c.side)).queue != [] && Last(SemOf(s, Other(c.side)).queue).who == w
    ensures TaskOf(SignalStep(s, t, c), w) == Busy(Copy, TaskOf(s, w).call)
    ensures forall v :: v != w && v != t ==> TaskOf(SignalStep(s, t, c), v) == TaskOf(s, v)
  {
  }

  /** The mutex of a side goes to a waiter of the highest priority there is. */
  lemma MutexGoesToMostUrgent(s: Queue, t: Tid, ok: bool, c: Call, u: Tid)
    requires Reachable(s) && Serial(s, c.side) && TaskOf(s, t) == Busy(AtUnlock(ok), c)
    requires u != t && UseZone(TaskOf(s, u), c.side) == Gate
    ensures var w := Use(Step(s, Advance(t)), c.side).holder;
      w.Some? && w.value != t && UseZone(TaskOf(s, w.value), c.side) == Gate && PrioOf(s, u) <= PrioOf(s, w.value)
  {
    ReachablePrices(s);
    var l := Use(s, c.side);
    assert Zones(s, c.side)(t) == Inside && Zones(s, c.side)(u) == Gate;
    assert u in Names(l.queue);
    ServedIsMostUrgent(l.queue, l.clock, PricesOf(s), u);
    assert Zones(s, c.side)(Last(l.queue).who) == Gate;
  }
}
