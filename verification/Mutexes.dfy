/**
 mtask2's recursive mutex and its monitor, statement by statement, over every interleaving of any number
 of tasks.  Both are a semaphore with one event plus an `owner` field; the mutex also counts nested
 entries, the monitor panics on them.
 */
module Mutexes {
  import opened Base
  import opened WaitOrder
  import opened Semaphores
  import opened Locks

  /** How long a caller is willing to wait: `msecs` zero, finite, or FOREVER. */
  datatype Limit = Never | Timed | Forever

  /** What a task is about to execute. */
  datatype Pc =
    | Outside
    | Check(prio: nat, limit: Limit)   // compare owner with the current task
    | AtWait(prio: nat, limit: Limit)  // WaitSemTimed
    | Queued(prio: nat, limit: Limit)  // asleep in the semaphore
    | Holding                          // has the event, about to set owner
    | Count                            // about to set use_count to 1
    | Again                            // about to increment use_count
    | LeaveCheck                       // LeaveMutex: compare owner with the current task
    | Dec                              // decrement use_count and test it
    | Clear                            // about to clear owner
    | Sig                              // about to call SignalSem

  datatype State = State(
    recursive: bool,
    sem: Sem,
    owner: Option<Tid>,
    useCount: int,
    pc: map<Tid, Pc>,
    depth: map<Tid, nat>,  // successful enters minus leaves, per task
    panicked: bool)

  function PcOf(s: State, t: Tid): Pc { if t in s.pc then s.pc[t] else Outside }

  function DepthOf(s: State, t: Tid): nat { if t in s.depth then s.depth[t] else 0 }

  /** CreateMutex (recursive) and CreateMonitor: one event, zeroed fields. */
  function Init(recursive: bool): State {
    State(recursive, Sem(1, [], 0), None, 0, map[], map[], false)
  }

  /** `Prioritize` is SetPriority, which can come at any moment. */
  datatype Action =
    | Enter(t: Tid, prio: nat, limit: Limit)
    | Leave(t: Tid)
    | Advance(t: Tid)
    | TimeOut(t: Tid)
    | Prioritize(t: Tid, prio: nat)

  ghost predicate Enabled(s: State, a: Action) {
    !s.panicked &&
    match a
    case Enter(t, _, _) => PcOf(s, t).Outside?
    case Leave(t) => PcOf(s, t).Outside?
    case Advance(t) => !PcOf(s, t).Outside? && !PcOf(s, t).Queued?
    case TimeOut(t) => PcOf(s, t).Queued? && PcOf(s, t).limit.Timed?
    case Prioritize(_, _) => true
  }

  function Goto(s: State, t: Tid, pc: Pc): State { s.(pc := s.pc[t := pc]) }

  function Return(s: State, t: Tid, depth: nat): State {
    s.(pc := s.pc[t := Outside], depth := s.depth[t := depth])
  }

  /** A task on its way to the semaphore will queue with its new priority, and one that waits is queued anew. */
  function Repriced(pc: Pc, prio: nat): Pc {
    match pc
    case Check(_, limit) => Check(prio, limit)
    case AtWait(_, limit) => AtWait(prio, limit)
    case Queued(_, limit) => Queued(prio, limit)
    case _ => pc
  }

  function Step(s: State, a: Action): State {
    match a
    case Enter(t, prio, limit) => Goto(s, t, Check(prio, limit))
    case Leave(t) => Goto(s, t, LeaveCheck)
    case TimeOut(t) => Goto(s.(sem := Do(s.sem, Expire(t))), t, Outside)
    case Prioritize(t, prio) =>
      Goto(s.(sem := Do(s.sem, SetPriority(t, prio))), t, Repriced(PcOf(s, t), prio))
    case Advance(t) =>
      match PcOf(s, t)
      case Check(prio, limit) =>
        if s.owner != Some(t) then Goto(s, t, AtWait(prio, limit))
        else if s.recursive then Goto(s, t, Again)
        else s.(panicked := true)
      case AtWait(prio, limit) =>
        var s' := s.(sem := Wait(s.sem, t, prio, limit.Never?));
        Goto(s', t, if s.sem.value > 0 then Holding else if limit.Never? then Outside else Queued(prio, limit))
      case Holding =>
        var s' := s.(owner := Some(t));
        if s.recursive then Goto(s', t, Count) else Return(s', t, 1)
      case Count => Return(s.(useCount := 1), t, 1)
      case Again => Return(s.(useCount := s.useCount + 1), t, DepthOf(s, t) + 1)
      case LeaveCheck =>
        if s.owner != Some(t) then s.(panicked := true)
        else if s.recursive then Goto(s, t, Dec)
        else Goto(s.(depth := s.depth[t := 0]), t, Clear)
      case Dec =>
        var s' := s.(useCount := s.useCount - 1,
          depth := s.depth[t := if DepthOf(s, t) == 0 then 0 else DepthOf(s, t) - 1]);
        Goto(s', t, if s.useCount == 1 then Clear else Outside)
      case Clear => Goto(s.(owner := None), t, Sig)
      case Sig =>
        var s' := Goto(s.(sem := Signal(s.sem)), t, Outside);
        if s.sem.queue == [] then s' else Goto(s', Last(s.sem.queue).who, Holding)
      case _ => s
  }

  // ----- the invariant -----

  /** The task owns the semaphore's event, from the moment it is given it until it signals. */
  predicate Holds(s: State, t: Tid) {
    match PcOf(s, t)
    case AtWait(_, _) => false
    case Queued(_, _) => false
    case Holding => true
    case Count => true
    case Clear => true
    case Sig => true
    case _ => DepthOf(s, t) > 0
  }

  /** What one task's program counter says about its depth and the shared fields. */
  ghost predicate TaskInv(s: State, t: Tid) {
    var d := DepthOf(s, t);
    && (PcOf(s, t).AtWait? || PcOf(s, t).Queued? || PcOf(s, t).Holding? ==> d == 0)
    && (PcOf(s, t).Count? || PcOf(s, t).Clear? || PcOf(s, t).Sig? ==> d == 0)
    && (PcOf(s, t).Again? || PcOf(s, t).Dec? ==> d > 0)
    && (s.owner == Some(t) <==> d > 0 || PcOf(s, t).Count? || PcOf(s, t).Clear?)
    && (s.recursive && d > 0 ==> s.useCount == d)
    && (s.recursive && PcOf(s, t).Clear? ==> s.useCount == 0)
    && (!s.recursive ==> d <= 1 && !PcOf(s, t).Count? && !PcOf(s, t).Again? && !PcOf(s, t).Dec?)
    && (PcOf(s, t).Queued? <==> t in Names(s.sem.queue))
  }

  /** `h` is the only task that holds the event, which is in the semaphore exactly when nobody does. */
  ghost predicate Inv(s: State, h: Option<Tid>) {
    && ValidSem(s.sem)
    && s.sem.value == (if h.None? then 1 else 0)
    && (forall t: Tid :: TaskInv(s, t))
    && (forall t: Tid :: Holds(s, t) <==> h == Some(t))
  }

  /** Who holds after the action. */
  function NextHolder(s: State, a: Action, h: Option<Tid>): Option<Tid> {
    if !a.Advance? then h
    else match PcOf(s, a.t)
      case AtWait(_, _) => if s.sem.value > 0 then Some(a.t) else h
      case Sig => if s.sem.queue == [] then None else Some(Last(s.sem.queue).who)
      case _ => h
  }

  lemma SignalKeepsInv(s: State, t: Tid, h: Option<Tid>)
    requires Inv(s, h) && PcOf(s, t).Sig?
    ensures Inv(Step(s, Advance(t)), NextHolder(s, Advance(t), h))
  {
    var s' := Step(s, Advance(t));
    assert Holds(s, t) && TaskInv(s, t);
    StepKeepsValid(s.sem, SignalSem);
    if s.sem.queue != [] {
      var w := Last(s.sem.queue).who;
      FrontKeepsValid(s.sem.queue, s.sem.clock);
      assert TaskInv(s, w) && w in Names(s.sem.queue);
      forall u: Tid ensures TaskInv(s', u) && (Holds(s', u) <==> u == w) {
        assert TaskInv(s, u) && (Holds(s, u) <==> u == t);
      }
    } else {
      forall u: Tid ensures TaskInv(s', u) && !Holds(s', u) {
        assert TaskInv(s, u) && (Holds(s, u) <==> u == t);
      }
    }
  }

  lemma WaitKeepsInv(s: State, t: Tid, h: Option<Tid>)
    requires Inv(s, h) && PcOf(s, t).AtWait?
    ensures Inv(Step(s, Advance(t)), NextHolder(s, Advance(t), h))
  {
    var s' := Step(s, Advance(t));
    var prio, limit := PcOf(s, t).prio, PcOf(s, t).limit;
    assert TaskInv(s, t);
    StepKeepsValid(s.sem, WaitSem(t, prio, limit.Never?));
    if s.sem.value == 0 && !limit.Never? {
      InsertKeepsValid(s.sem.queue, Entry(t, prio, s.sem.clock), s.sem.clock);
    }
    var h' := NextHolder(s, Advance(t), h);
    forall u: Tid ensures TaskInv(s', u) && (Holds(s', u) <==> h' == Some(u)) {
      assert TaskInv(s, u) && (Holds(s, u) <==> h == Some(u));
    }
  }

  lemma TimeOutKeepsInv(s: State, t: Tid, h: Option<Tid>)
    requires Inv(s, h) && PcOf(s, t).Queued? && PcOf(s, t).limit.Timed?
    ensures Inv(Step(s, TimeOut(t)), h)
  {
    var s' := Step(s, TimeOut(t));
    assert TaskInv(s, t);
    StepKeepsValid(s.sem, Expire(t));
    WithoutKeepsValid(s.sem.queue, t, s.sem.clock);
    forall u: Tid ensures TaskInv(s', u) && (Holds(s', u) <==> h == Some(u)) {
      assert TaskInv(s, u) && (Holds(s, u) <==> h == Some(u));
    }
  }

  lemma PriorityKeepsInv(s: State, t: Tid, prio: nat, h: Option<Tid>)
    requires Inv(s, h)
    ensures Inv(Step(s, Prioritize(t, prio)), h)
  {
    var s' := Step(s, Prioritize(t, prio));
    StepKeepsValid(s.sem, SetPriority(t, prio));
    RequeueKeepsValid(s.sem.queue, t, prio, s.sem.clock);
    forall u: Tid ensures TaskInv(s', u) && (Holds(s', u) <==> h == Some(u)) {
      assert TaskInv(s, u) && (Holds(s, u) <==> h == Some(u));
    }
  }

  /** The statements that leave the semaphore alone. */
  predicate Quiet(s: State, a: Action) {
    a.Enter? || a.Leave? || (a.Advance? && !PcOf(s, a.t).AtWait? && !PcOf(s, a.t).Sig?)
  }

  lemma OwnStep(s: State, a: Action)
    requires TaskInv(s, a.t) && Enabled(s, a) && Quiet(s, a)
    ensures TaskInv(Step(s, a), a.t) && (Holds(Step(s, a), a.t) <==> Holds(s, a.t))
  {
  }

  lemma OtherStep(s: State, a: Action, u: Tid)
    requires TaskInv(s, a.t) && TaskInv(s, u) && u != a.t && Enabled(s, a) && Quiet(s, a)
    requires !(Holds(s, u) && Holds(s, a.t))
    ensures TaskInv(Step(s, a), u) && (Holds(Step(s, a), u) <==> Holds(s, u))
  {
  }

  lemma SameSem(s: State, a: Action)
    requires Enabled(s, a) && Quiet(s, a)
    ensures Step(s, a).sem == s.sem
  {
  }

  lemma QuietKeepsInv(s: State, a: Action, h: Option<Tid>)
    requires Inv(s, h) && Enabled(s, a) && Quiet(s, a)
    ensures Inv(Step(s, a), h)
  {
    SameSem(s, a);
    forall u: Tid ensures TaskInv(Step(s, a), u) && (Holds(Step(s, a), u) <==> h == Some(u)) {
      assert TaskInv(s, u) && (Holds(s, u) <==> h == Some(u));
      if u == a.t {
        OwnStep(s, a);
      } else {
        assert TaskInv(s, a.t) && (Holds(s, a.t) <==> h == Some(a.t));
        OtherStep(s, a, u);
      }
    }
  }

  lemma StepKeepsInv(s: State, a: Action, h: Option<Tid>)
    requires Inv(s, h) && Enabled(s, a)
    ensures Inv(Step(s, a), NextHolder(s, a, h))
  {
    if a.TimeOut? {
      TimeOutKeepsInv(s, a.t, h);
    } else if a.Advance? && PcOf(s, a.t).Sig? {
      SignalKeepsInv(s, a.t, h);
    } else if a.Advance? && PcOf(s, a.t).AtWait? {
      WaitKeepsInv(s, a.t, h);
    } else if a.Prioritize? {
      PriorityKeepsInv(s, a.t, a.prio, h);
    } else {
      QuietKeepsInv(s, a, h);
    }
  }

  // ----- whole runs -----

  ghost predicate Possible(s: State, acts: seq<Action>)
    decreases acts
  {
    acts == [] || (Enabled(s, acts[0]) && Possible(Step(s, acts[0]), acts[1..]))
  }

  function Run(s: State, acts: seq<Action>): State
    decreases acts
  {
    if acts == [] then s else Run(Step(s, acts[0]), acts[1..])
  }

  lemma {:induction false} RunKeepsInv(s: State, acts: seq<Action>, h: Option<Tid>) returns (h': Option<Tid>)
    requires Inv(s, h) && Possible(s, acts)
    ensures Inv(Run(s, acts), h')
    decreases acts
  {
    if acts == [] {
      h' := h;
    } else {
      StepKeepsInv(s, acts[0], h);
      h' := RunKeepsInv(Step(s, acts[0]), acts[1..], NextHolder(s, acts[0], h));
    }
  }

  function Tasks(s: State, p: Pc -> bool): set<Tid> {
    set t | t in s.pc && p(s.pc[t])
  }

  lemma AtMost<T>(s: set<T>, x: T)
    requires forall y :: y in s ==> y == x
    ensures s == if x in s then {x} else {}
  {
  }

  /**
   The token law, in every reachable state: the stored event, the task that was given the event but has
   not set `owner` yet, the owner, and the task that cleared `owner` but has not signalled yet add up to
   exactly one.
   */
  lemma TokenLaw(recursive: bool, acts: seq<Action>)
    requires Possible(Init(recursive), acts)
    ensures var s := Run(Init(recursive), acts);
      s.sem.value + |Tasks(s, (p: Pc) => p.Holding?)| + (if s.owner.Some? then 1 else 0)
        + |Tasks(s, (p: Pc) => p.Sig?)| == 1
  {
    var h := RunKeepsInv(Init(recursive), acts, None);
    var s := Run(Init(recursive), acts);
    var a, b := Tasks(s, (p: Pc) => p.Holding?), Tasks(s, (p: Pc) => p.Sig?);
    forall t: Tid ensures TaskInv(s, t) && (Holds(s, t) <==> h == Some(t)) {}
    if h.None? {
      assert forall t :: t in s.pc ==> !Holds(s, t);
      assert a == {} && b == {};
      assert s.owner.Some? ==> Holds(s, s.owner.value);
    } else {
      var t := h.value;
      forall u | u in a || u in b ensures u == t { assert Holds(s, u); }
      AtMost(a, t);
      AtMost(b, t);
      assert s.owner.Some? ==> TaskInv(s, s.owner.value) && Holds(s, s.owner.value);
      assert TaskInv(s, t) && Holds(s, t);
    }
  }

  /** Mutual exclusion, nesting, and the meaning of `use_count`, in every reachable state. */
  lemma MutualExclusion(recursive: bool, acts: seq<Action>, t: Tid, u: Tid)
    requires Possible(Init(recursive), acts)
    ensures var s := Run(Init(recursive), acts);
      && (DepthOf(s, t) > 0 && DepthOf(s, u) > 0 ==> t == u)
      && (DepthOf(s, t) > 0 ==> s.owner == Some(t))
      && (recursive && DepthOf(s, t) > 0 ==> s.useCount == DepthOf(s, t))
      && (!recursive ==> DepthOf(s, t) <= 1)
  {
    var h := RunKeepsInv(Init(recursive), acts, None);
    var s := Run(Init(recursive), acts);
    RunKeepsKind(Init(recursive), acts);
    assert TaskInv(s, t) && TaskInv(s, u);
  }

  lemma StepKeepsKind(s: State, a: Action)
    ensures Step(s, a).recursive == s.recursive
  {
  }

  lemma {:induction false} RunKeepsKind(s: State, acts: seq<Action>)
    ensures Run(s, acts).recursive == s.recursive
    decreases acts
  {
    if acts != [] {
      StepKeepsKind(s, acts[0]);
      RunKeepsKind(Step(s, acts[0]), acts[1..]);
    }
  }

  /**
   The fatal errors are exactly the misuses: leaving what one has not entered and, for a monitor, entering
   what one is already inside.
   */
  lemma PanicsExactlyOnMisuse(recursive: bool, acts: seq<Action>, t: Tid)
    requires Possible(Init(recursive), acts)
    requires Enabled(Run(Init(recursive), acts), Advance(t))
    ensures var s := Run(Init(recursive), acts);
      Step(s, Advance(t)).panicked <==>
        || (PcOf(s, t).LeaveCheck? && DepthOf(s, t) == 0)
        || (PcOf(s, t).Check? && !recursive && DepthOf(s, t) > 0)
  {
    var h := RunKeepsInv(Init(recursive), acts, None);
    var s := Run(Init(recursive), acts);
    RunKeepsKind(Init(recursive), acts);
    assert TaskInv(s, t);
  }

  // ----- what an enter answers, and what `depth` counts -----

  /** What the action makes its task's enter return, if it ends with it. */
  function Answer(s: State, a: Action): Option<bool> {
    match a
    case TimeOut(_) => Some(false)
    case Advance(t) =>
      (match PcOf(s, t)
       case AtWait(_, limit) => if s.sem.value == 0 && limit.Never? then Some(false) else None
       case Holding => if s.recursive then None else Some(true)
       case Count => Some(true)
       case Again => Some(true)
       case _ => None)
    case _ => None
  }

  /** The enters of `t` that have succeeded, minus its leaves. */
  function Balance(s: State, acts: seq<Action>, t: Tid, n: int): int
    decreases acts
  {
    if acts == [] then n else Balance(Step(s, acts[0]), acts[1..], t, BalanceNow(s, acts[0], t, n))
  }

  function BalanceNow(s: State, a: Action, t: Tid, n: int): int {
    if a.t != t then n else if a.Leave? then n - 1 else if Answer(s, a) == Some(true) then n + 1 else n
  }

  /** A leave counts from its first statement on. */
  predicate Balanced(pc: Pc, depth: nat, n: int) {
    depth == n + if pc.LeaveCheck? || pc.Dec? then 1 else 0
  }

  lemma StepBalances(s: State, a: Action, u: Tid, n: int, h: Option<Tid>)
    requires Inv(s, h) && Enabled(s, a) && Balanced(PcOf(s, u), DepthOf(s, u), n)
    ensures !Step(s, a).panicked ==> Balanced(PcOf(Step(s, a), u), DepthOf(Step(s, a), u), BalanceNow(s, a, u, n))
  {
    assert TaskInv(s, u);
    if u == a.t {
      OwnBalance(s, a, n, h);
    } else {
      OtherTask(s, a, u, h);
      OtherDepth(s, a, u);
    }
  }

  lemma OtherDepth(s: State, a: Action, u: Tid)
    requires Enabled(s, a) && u != a.t
    ensures DepthOf(Step(s, a), u) == DepthOf(s, u)
  {
  }

  lemma OwnBalance(s: State, a: Action, n: int, h: Option<Tid>)
    requires Inv(s, h) && Enabled(s, a) && Balanced(PcOf(s, a.t), DepthOf(s, a.t), n) && TaskInv(s, a.t)
    ensures !Step(s, a).panicked ==>
      Balanced(PcOf(Step(s, a), a.t), DepthOf(Step(s, a), a.t), BalanceNow(s, a, a.t, n))
  {
    if a.Advance? && PcOf(s, a.t).Sig? && s.sem.queue != [] {
      assert Last(s.sem.queue).who in Names(s.sem.queue) && TaskInv(s, Last(s.sem.queue).who);
    }
  }

  lemma {:induction false} RunBalances(s: State, acts: seq<Action>, t: Tid, n: int, h: Option<Tid>)
    requires Inv(s, h) && Possible(s, acts) && Balanced(PcOf(s, t), DepthOf(s, t), n)
    ensures !Run(s, acts).panicked ==>
      Balanced(PcOf(Run(s, acts), t), DepthOf(Run(s, acts), t), Balance(s, acts, t, n))
    decreases acts
  {
    if acts != [] {
      StepBalances(s, acts[0], t, n, h);
      StepKeepsInv(s, acts[0], h);
      if Step(s, acts[0]).panicked {
        assert acts[1..] == [];
      } else {
        RunBalances(Step(s, acts[0]), acts[1..], t, BalanceNow(s, acts[0], t, n), NextHolder(s, acts[0], h));
      }
    }
  }

  /**
   Over every run a task outside any call is as deep in the mutex as it has entered it more often with success than left
   it, and `use_count` of a mutex it is in is that number.
   */
  lemma DepthCounts(recursive: bool, acts: seq<Action>, t: Tid)
    requires Possible(Init(recursive), acts) && !Run(Init(recursive), acts).panicked
    requires PcOf(Run(Init(recursive), acts), t).Outside?
    ensures var s := Run(Init(recursive), acts);
      && DepthOf(s, t) == Balance(Init(recursive), acts, t, 0)
      && (recursive && DepthOf(s, t) > 0 ==> s.useCount == Balance(Init(recursive), acts, t, 0))
  {
    RunBalances(Init(recursive), acts, t, 0, None);
    MutualExclusion(recursive, acts, t, t);
  }

  // ----- waiters are queued with their priority, and the most urgent is served -----

  function PrioOf(s: State, t: Tid): nat {
    match PcOf(s, t)
    case Check(prio, _) => prio
    case AtWait(prio, _) => prio
    case Queued(prio, _) => prio
    case _ => 0
  }

  ghost function PricesOf(s: State): Tid -> nat { (t: Tid) => PrioOf(s, t) }

  /** The priority and the patience a task entered with, the priority as it has been set since. */
  datatype Wish = Wish(prio: nat, limit: Limit)

  function WishNow(a: Action, t: Tid, w: Wish): Wish {
    if a.t != t then w
    else match a
      case Enter(_, prio, limit) => Wish(prio, limit)
      case Prioritize(_, prio) => w.(prio := prio)
      case _ => w
  }

  function WishOf(acts: seq<Action>, t: Tid, w: Wish): Wish
    decreases acts
  {
    if acts == [] then w else WishOf(acts[1..], t, WishNow(acts[0], t, w))
  }

  /** A task on its way in goes by its wish; without patience it does not sleep. */
  predicate Obeys(pc: Pc, w: Wish) {
    match pc
    case Check(prio, limit) => Wish(prio, limit) == w
    case AtWait(prio, limit) => Wish(prio, limit) == w
    case Queued(prio, limit) => Wish(prio, limit) == w && !limit.Never?
    case _ => true
  }

  /** What an action leaves of another task: all, unless it hands it the event. */
  lemma OtherTask(s: State, a: Action, u: Tid, h: Option<Tid>)
    requires Inv(s, h) && Enabled(s, a) && u != a.t
    ensures PcOf(Step(s, a), u) == PcOf(s, u) || (PcOf(s, u).Queued? && PcOf(Step(s, a), u).Holding?)
    ensures PcOf(Step(s, a), u) != PcOf(s, u) ==> a.Advance? && PcOf(s, a.t).Sig?
  {
    if s.sem.queue != [] {
      assert Last(s.sem.queue).who in Names(s.sem.queue) && TaskInv(s, Last(s.sem.queue).who);
    }
    OthersStay(s, a, u);
  }

  lemma OthersStay(s: State, a: Action, u: Tid)
    requires Enabled(s, a) && u != a.t
    ensures PcOf(Step(s, a), u) == PcOf(s, u)
      || (a.Advance? && PcOf(s, a.t).Sig? && s.sem.queue != [] && u == Last(s.sem.queue).who
          && PcOf(Step(s, a), u).Holding?)
  {
  }

  lemma StepObeys(s: State, a: Action, u: Tid, w: Wish, h: Option<Tid>)
    requires Inv(s, h) && Enabled(s, a) && Obeys(PcOf(s, u), w)
    ensures Obeys(PcOf(Step(s, a), u), WishNow(a, u, w))
  {
    if u != a.t {
      OtherTask(s, a, u, h);
    } else if a.Advance? && PcOf(s, u).Sig? && s.sem.queue != [] {
      assert Last(s.sem.queue).who in Names(s.sem.queue) && TaskInv(s, Last(s.sem.queue).who);
    }
  }

  /** The queue takes in the task that acts, with its priority, or nobody. */
  lemma StepFed(s: State, a: Action)
    requires Enabled(s, a) && !a.Prioritize?
    ensures Fed(s.sem.queue, Step(s, a).sem.queue, a.t, PrioOf(s, a.t))
  {
    match a
    case TimeOut(t) => FedWithout(s.sem.queue, t, t, PrioOf(s, t));
    case Advance(t) =>
      match PcOf(s, t) {
        case AtWait(prio, limit) => FedInsert(s.sem.queue, Entry(t, prio, s.sem.clock));
        case Sig => if s.sem.queue != [] { FedFront(s.sem.queue, t, PrioOf(s, t)); }
        case _ =>
      }
    case _ =>
  }

  lemma StepKeepsPrices(s: State, a: Action, h: Option<Tid>)
    requires Inv(s, h) && Enabled(s, a) && Priced(s.sem.queue, PricesOf(s))
    ensures Priced(Step(s, a).sem.queue, PricesOf(Step(s, a)))
  {
    var s', t := Step(s, a), a.t;
    var f, f' := PricesOf(s), PricesOf(s');
    StepKeepsInv(s, a, h);
    var h' := NextHolder(s, a, h);
    assert TaskInv(s, t) && TaskInv(s', t);
    forall u: Tid | u != t && u in Names(s'.sem.queue) ensures f'(u) == f(u) {
      assert TaskInv(s', u);
      OtherTask(s, a, u, h);
    }
    if a.Prioritize? {
      PricedRequeue(s.sem.queue, t, a.prio, s.sem.clock, f, f');
    } else {
      StepFed(s, a);
      PricedFed(s.sem.queue, s'.sem.queue, t, PrioOf(s, t), f, f');
    }
  }

  lemma {:induction false} RunKeepsPrices(s: State, acts: seq<Action>, t: Tid, w: Wish, h: Option<Tid>)
    requires Inv(s, h) && Possible(s, acts) && Priced(s.sem.queue, PricesOf(s)) && Obeys(PcOf(s, t), w)
    ensures Priced(Run(s, acts).sem.queue, PricesOf(Run(s, acts)))
    ensures Obeys(PcOf(Run(s, acts), t), WishOf(acts, t, w))
    decreases acts
  {
    if acts != [] {
      StepKeepsInv(s, acts[0], h);
      StepKeepsPrices(s, acts[0], h);
      StepObeys(s, acts[0], t, w, h);
      RunKeepsPrices(Step(s, acts[0]), acts[1..], t, WishNow(acts[0], t, w), NextHolder(s, acts[0], h));
    }
  }

  /**
   Over every run the task that signals hands the event to a waiter, and no other waiter has a higher priority, as it
   was given on entering or set since.  A task without patience never waits.
   */
  lemma EventGoesToMostUrgent(recursive: bool, acts: seq<Action>, t: Tid, u: Tid, none: Wish)
    requires Possible(Init(recursive), acts)
    requires PcOf(Run(Init(recursive), acts), t).Sig? && PcOf(Run(Init(recursive), acts), u).Queued?
    ensures !WishOf(acts, u, none).limit.Never?
    ensures var s := Run(Init(recursive), acts);
      exists w :: PcOf(s, w).Queued? && PcOf(Step(s, Advance(t)), w).Holding?
        && WishOf(acts, u, none).prio <= WishOf(acts, w, none).prio
  {
    var h := RunKeepsInv(Init(recursive), acts, None);
    var s := Run(Init(recursive), acts);
    var q := s.sem.queue;
    assert TaskInv(s, u);
    RunKeepsPrices(Init(recursive), acts, u, none, None);
    ServedIsMostUrgent(q, s.sem.clock, PricesOf(s), u);
    var w := Last(q).who;
    assert TaskInv(s, w);
    RunKeepsPrices(Init(recursive), acts, w, none, None);
    assert PcOf(Step(s, Advance(t)), w).Holding?;
  }

  // ----- the plain lock it implements -----

  function Abstract(s: State, h: Option<Tid>): Lock { Lock(h, s.sem.queue, s.sem.clock) }

  /** The lock operation that an action performs; most actions perform none. */
  function Visible(s: State, a: Action, l: Lock): Lock {
    match a
    case TimeOut(t) => GiveUp(l, t)
    case Prioritize(t, prio) => Reprioritize(l, t, prio)
    case Advance(t) =>
      (match PcOf(s, t)
       case AtWait(prio, limit) => Acquire(l, t, prio, limit.Never?)
       case Sig => Release(l)
       case _ => l)
    case _ => l
  }

  /** Every statement of the mutex or monitor is one operation of the plain lock, or none. */
  lemma ImplementsLock(s: State, a: Action, h: Option<Tid>)
    requires Inv(s, h) && Enabled(s, a)
    ensures ValidLock(Abstract(s, h))
    ensures Abstract(Step(s, a), NextHolder(s, a, h)) == Visible(s, a, Abstract(s, h))
    ensures a.Advance? && PcOf(s, a.t).Sig? ==> h == Some(a.t)
    ensures a.Advance? && PcOf(s, a.t).AtWait? ==> h != Some(a.t) && a.t !in Names(s.sem.queue)
  {
    assert TaskInv(s, a.t) && (Holds(s, a.t) <==> h == Some(a.t));
    if h.Some? {
      assert TaskInv(s, h.value) && Holds(s, h.value);
    }
  }
}
