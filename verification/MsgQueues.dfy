/**
 mtask2's message queue over every interleaving: two counting semaphores guard a ring of slots, and the
 copying and the pointer updates happen outside any lock but the optional per-side mutex.

 A side without a mutex may be open to any number of users, or have one at a time as its interface asks.  The
 tokens add up and somebody can always go on in any case; the messages come out in order when both sides have one
 user at a time.
 */
module MsgQueues {
  import opened Base
  import opened WaitOrder
  import opened Semaphores
  import opened Locks
  import opened Rings
  import Mutexes

  type Msg = seq<Byte>
  type Limit = Mutexes.Limit

  datatype Side = Get | Put

  /** `msg` is the message to put, or the one received. */
  datatype Call = Call(side: Side, msg: Msg, limit: Limit, prio: nat)

  datatype Phase =
    | AtMutex
    | AtWait      // about to call WaitSemTimed
    | Queued      // asleep in the semaphore
    | Copy        // has a token, about to copy the slot
    | Bump        // about to advance head or tail
    | Wrap        // about to compare it with the end of the buffer
    | AtSignal    // about to signal the other semaphore
    | AtUnlock(ok: bool)  // about to leave the mutex, if any, and return

  datatype Task = Idle | Busy(phase: Phase, call: Call)

  datatype Queue = Queue(
    max: nat, buf: seq<Msg>, head: nat, tail: nat,
    semGet: Sem, semPut: Sem,
    accessGet: Access, accessPut: Access, useGet: Lock, usePut: Lock,
    tasks: map<Tid, Task>,
    sent: seq<Msg>, received: seq<Msg>)  // every message ever copied in and out

  function Other(side: Side): Side { if side.Get? then Put else Get }

  function TaskOf(s: Queue, t: Tid): Task { if t in s.tasks then s.tasks[t] else Idle }

  function AccessOf(s: Queue, side: Side): Access { if side.Get? then s.accessGet else s.accessPut }

  /** Calls of this side come one at a time. */
  predicate Serial(s: Queue, side: Side) { !AccessOf(s, side).Open? }

  predicate BothSerial(s: Queue) { Serial(s, Get) && Serial(s, Put) }

  function Use(s: Queue, side: Side): Lock { if side.Get? then s.useGet else s.usePut }

  function SetUse(s: Queue, side: Side, l: Lock): Queue {
    if side.Get? then s.(useGet := l) else s.(usePut := l)
  }

  function SemOf(s: Queue, side: Side): Sem { if side.Get? then s.semGet else s.semPut }

  function SetSem(s: Queue, side: Side, m: Sem): Queue {
    if side.Get? then s.(semGet := m) else s.(semPut := m)
  }

  function PointerOf(s: Queue, side: Side): nat { if side.Get? then s.head else s.tail }

  function SetPointer(s: Queue, side: Side, i: nat): Queue {
    if side.Get? then s.(head := i) else s.(tail := i)
  }

  /** CreateMsgQueue; `blank` is what the slots hold at first. */
  function Init(max: nat, blank: Msg, accessGet: Access, accessPut: Access): Queue
    requires max > 0
  {
    Queue(max, seq(max, i => blank), 0, 0, Sem(0, [], 0), Sem(max, [], 0),
          accessGet, accessPut, FREE, FREE, map[], [], [])
  }

  // ----- the statements -----

  function Goto(s: Queue, t: Tid, p: Phase, c: Call): Queue { s.(tasks := s.tasks[t := Busy(p, c)]) }

  function Quit(s: Queue, t: Tid): Queue { s.(tasks := s.tasks[t := Idle]) }

  function Start(s: Queue, t: Tid, c: Call): Queue {
    var l := Use(s, c.side);
    if !Serial(s, c.side) then Goto(s, t, AtWait, c)
    else if l.holder.Some? && c.limit.Never? then s
    else Goto(SetUse(s, c.side, Acquire(l, t, c.prio, false)), t, AtMutex, c)
  }

  function WaitStep(s: Queue, t: Tid, c: Call): Queue {
    var m := SemOf(s, c.side);
    var s' := SetSem(s, c.side, Wait(m, t, c.prio, c.limit.Never?));
    Goto(s', t, if m.value > 0 then Copy else if c.limit.Never? then AtUnlock(false) else Queued, c)
  }

  /** The copying; what lies behind the buffer, where several users of an open side may get, is not shown. */
  function CopyStep(s: Queue, t: Tid, c: Call): Queue {
    if PointerOf(s, c.side) >= |s.buf| then Goto(s, t, Bump, c)
    else if c.side.Get? then
      var x := s.buf[s.head];
      Goto(s.(received := s.received + [x]), t, Bump, c.(msg := x))
    else
      Goto(s.(buf := s.buf[s.tail := c.msg], sent := s.sent + [c.msg]), t, Bump, c)
  }

  function BumpStep(s: Queue, t: Tid, c: Call): Queue {
    Goto(SetPointer(s, c.side, PointerOf(s, c.side) + 1), t, Wrap, c)
  }

  function WrapStep(s: Queue, t: Tid, c: Call): Queue {
    Goto(if PointerOf(s, c.side) == s.max then SetPointer(s, c.side, 0) else s, t, AtSignal, c)
  }

  function SignalStep(s: Queue, t: Tid, c: Call): Queue {
    var o := Other(c.side);
    var m := SemOf(s, o);
    var s1 := Goto(SetSem(s, o, Signal(m)), t, AtUnlock(true), c);
    if m.queue == [] then s1
    else
      var w := Last(m.queue).who;
      if TaskOf(s1, w).Busy? then Goto(s1, w, Copy, TaskOf(s1, w).call) else s1
  }

  function UnlockStep(s: Queue, t: Tid, c: Call): Queue {
    Quit(if Serial(s, c.side) then SetUse(s, c.side, Release(Use(s, c.side))) else s, t)
  }

  /** `Prioritize` is SetPriority, which can come at any moment. */
  datatype Action = Begin(t: Tid, call: Call) | Advance(t: Tid) | TimeOut(t: Tid) | Prioritize(t: Tid, prio: nat)

  predicate Ready(s: Queue, t: Tid) {
    var k := TaskOf(s, t);
    k.Busy? && !k.phase.Queued? && (k.phase.AtMutex? ==> Use(s, k.call.side).holder == Some(t))
  }

  ghost predicate Enabled(s: Queue, a: Action) {
    match a
    case Begin(t, c) => TaskOf(s, t).Idle? && (AccessOf(s, c.side).Single? ==> Use(s, c.side).holder.None?)
    case Advance(t) => Ready(s, t)
    case TimeOut(t) =>
      var k := TaskOf(s, t);
      k.Busy? && k.call.limit.Timed?
      && (k.phase.Queued? || (k.phase.AtMutex? && Use(s, k.call.side).holder != Some(t)))
    case Prioritize(_, _) => true
  }

  function TimeOutStep(s: Queue, t: Tid, p: Phase, c: Call): Queue {
    if p.Queued? then Goto(SetSem(s, c.side, Semaphores.Do(SemOf(s, c.side), Expire(t))), t, AtUnlock(false), c)
    else Quit(SetUse(s, c.side, GiveUp(Use(s, c.side), t)), t)
  }

  /** A task in a queue is queued anew, and one inside a call will queue with its new priority. */
  function PriorityStep(s: Queue, t: Tid, prio: nat): Queue {
    var s' := s.(
      semGet := Semaphores.Do(s.semGet, SetPriority(t, prio)), semPut := Semaphores.Do(s.semPut, SetPriority(t, prio)),
      useGet := Reprioritize(s.useGet, t, prio), usePut := Reprioritize(s.usePut, t, prio));
    var k := TaskOf(s, t);
    if k.Busy? then Goto(s', t, k.phase, k.call.(prio := prio)) else s'
  }

  function Do(s: Queue, t: Tid, p: Phase, c: Call): Queue {
    match p
    case AtMutex => Goto(s, t, AtWait, c)
    case AtWait => WaitStep(s, t, c)
    case Copy => CopyStep(s, t, c)
    case Bump => BumpStep(s, t, c)
    case Wrap => WrapStep(s, t, c)
    case AtSignal => SignalStep(s, t, c)
    case AtUnlock(_) => UnlockStep(s, t, c)
    case Queued => s
  }

  function Step(s: Queue, a: Action): Queue {
    match a
    case Begin(t, c) => Start(s, t, c)
    case TimeOut(t) => var k := TaskOf(s, t); if k.Busy? then TimeOutStep(s, t, k.phase, k.call) else s
    case Prioritize(t, prio) => PriorityStep(s, t, prio)
    case Advance(t) => var k := TaskOf(s, t); if k.Busy? then Do(s, t, k.phase, k.call) else s
  }

  // ----- the invariant: mutexes, semaphores and tokens, whoever uses the queue -----

  function UseZone(k: Task, side: Side): Zone {
    if k.Idle? || k.call.side != side then Away else if k.phase.AtMutex? then Gate else Inside
  }

  ghost function Zones(s: Queue, side: Side): Tid -> Zone { (t: Tid) => UseZone(TaskOf(s, t), side) }

  predicate Sleeping(k: Task, side: Side) { k.Busy? && k.phase.Queued? && k.call.side == side }

  /** The mutex of a serialized side does its work; nobody is at the gate of an open one. */
  ghost predicate Orderly(s: Queue, side: Side) {
    if Serial(s, side) then Guards(Use(s, side), Zones(s, side)) else forall t: Tid :: Zones(s, side)(t) != Gate
  }

  ghost predicate SideInv(s: Queue, side: Side) {
    && Orderly(s, side)
    && ValidSem(SemOf(s, side))
    && (forall t: Tid :: t in Names(SemOf(s, side).queue) <==> Sleeping(TaskOf(s, t), side))
  }

  /** The task has taken a token and not signalled yet. */
  predicate Carries(k: Task) {
    k.Busy? && (k.phase.Copy? || k.phase.Bump? || k.phase.Wrap? || k.phase.AtSignal?)
  }

  function Carriers(s: Queue): set<Tid> { set t | t in s.tasks && Carries(s.tasks[t]) }

  /** Every token is in one of the semaphores or with a task. */
  ghost predicate Flow(s: Queue) { s.semGet.value + s.semPut.value + |Carriers(s)| == s.max }

  ghost predicate Inv(s: Queue) {
    s.max > 0 && SideInv(s, Get) && SideInv(s, Put) && Flow(s)
  }

  // ----- the sides -----

  predicate SameAccess(s: Queue, s': Queue) {
    s'.max == s.max && s'.accessGet == s.accessGet && s'.accessPut == s.accessPut
  }

  lemma OrderlySame(s: Queue, s': Queue, side: Side)
    requires Orderly(s, side) && Use(s', side) == Use(s, side) && SameAccess(s, s')
    requires forall u: Tid :: UseZone(TaskOf(s', u), side) == UseZone(TaskOf(s, u), side)
    ensures Orderly(s', side)
  {
    assert forall u: Tid :: Zones(s', side)(u) == Zones(s, side)(u);
    if Serial(s, side) { GuardsSame(Use(s, side), Zones(s, side), Zones(s', side)); }
  }

  /** A side that does not notice. */
  lemma SideSame(s: Queue, s': Queue, side: Side)
    requires SideInv(s, side) && Use(s', side) == Use(s, side) && SemOf(s', side) == SemOf(s, side) && SameAccess(s, s')
    requires forall u: Tid :: UseZone(TaskOf(s', u), side) == UseZone(TaskOf(s, u), side)
    requires forall u: Tid :: Sleeping(TaskOf(s', u), side) <==> Sleeping(TaskOf(s, u), side)
    ensures SideInv(s', side)
  {
    OrderlySame(s, s', side);
  }

  /** A side whose mutex alone changed. */
  lemma SideWithLock(s: Queue, s': Queue, side: Side)
    requires SideInv(s, side) && SemOf(s', side) == SemOf(s, side) && Orderly(s', side)
    requires forall u: Tid :: Sleeping(TaskOf(s', u), side) <==> Sleeping(TaskOf(s, u), side)
    ensures SideInv(s', side)
  {
  }

  lemma AtMutexIsSerial(s: Queue, t: Tid, c: Call)
    requires Orderly(s, c.side) && TaskOf(s, t) == Busy(AtMutex, c)
    ensures Serial(s, c.side)
  {
    assert Zones(s, c.side)(t) == Gate;
  }

  lemma StartSides(s: Queue, t: Tid, c: Call, s': Queue)
    requires SideInv(s, c.side) && SideInv(s, Other(c.side)) && TaskOf(s, t).Idle? && Serial(s, c.side)
    requires s' == Goto(SetUse(s, c.side, Acquire(Use(s, c.side), t, c.prio, false)), t, AtMutex, c)
    ensures SideInv(s', Get) && SideInv(s', Put)
  {
    GuardsArrive(Use(s, c.side), Zones(s, c.side), Zones(s', c.side), t, c.prio);
    SideWithLock(s, s', c.side);
    SideSame(s, s', Other(c.side));
  }

  lemma StartOpen(s: Queue, t: Tid, c: Call)
    requires SideInv(s, c.side) && SideInv(s, Other(c.side)) && TaskOf(s, t).Idle? && !Serial(s, c.side)
    ensures SideInv(Goto(s, t, AtWait, c), Get) && SideInv(Goto(s, t, AtWait, c), Put)
  {
    var s' := Goto(s, t, AtWait, c);
    forall u: Tid ensures Zones(s', c.side)(u) != Gate {
      assert Zones(s, c.side)(u) != Gate;
    }
    SideWithLock(s, s', c.side);
    SideSame(s, s', Other(c.side));
  }

  lemma GiveUpSides(s: Queue, t: Tid, c: Call)
    requires SideInv(s, c.side) && SideInv(s, Other(c.side))
    requires TaskOf(s, t) == Busy(AtMutex, c) && Use(s, c.side).holder != Some(t)
    ensures SideInv(TimeOutStep(s, t, AtMutex, c), Get) && SideInv(TimeOutStep(s, t, AtMutex, c), Put)
  {
    var s' := TimeOutStep(s, t, AtMutex, c);
    AtMutexIsSerial(s, t, c);
    assert Zones(s, c.side)(t) == Gate;
    GuardsGiveUp(Use(s, c.side), Zones(s, c.side), Zones(s', c.side), t);
    SideWithLock(s, s', c.side);
    SideSame(s, s', Other(c.side));
  }

  lemma ExpireSide(s: Queue, t: Tid, c: Call)
    requires SideInv(s, c.side) && TaskOf(s, t) == Busy(Queued, c)
    ensures SideInv(TimeOutStep(s, t, Queued, c), c.side)
  {
    var s' := TimeOutStep(s, t, Queued, c);
    var m := SemOf(s, c.side);
    Semaphores.StepKeepsValid(m, Expire(t));
    WithoutKeepsValid(m.queue, t, m.clock);
    OrderlySame(s, s', c.side);
    assert forall u: Tid :: u in Names(m.queue) <==> Sleeping(TaskOf(s, u), c.side);
  }

  lemma ExpireSides(s: Queue, t: Tid, c: Call)
    requires SideInv(s, c.side) && SideInv(s, Other(c.side)) && TaskOf(s, t) == Busy(Queued, c)
    ensures SideInv(TimeOutStep(s, t, Queued, c), Get) && SideInv(TimeOutStep(s, t, Queued, c), Put)
  {
    ExpireSide(s, t, c);
    SideSame(s, TimeOutStep(s, t, Queued, c), Other(c.side));
  }

  lemma PassSides(s: Queue, t: Tid, c: Call)
    requires SideInv(s, c.side) && SideInv(s, Other(c.side)) && TaskOf(s, t) == Busy(AtMutex, c) && Ready(s, t)
    ensures SideInv(Goto(s, t, AtWait, c), Get) && SideInv(Goto(s, t, AtWait, c), Put)
  {
    var s' := Goto(s, t, AtWait, c);
    AtMutexIsSerial(s, t, c);
    GuardsPass(Use(s, c.side), Zones(s, c.side), Zones(s', c.side), t);
    SideWithLock(s, s', c.side);
    SideSame(s, s', Other(c.side));
  }

  lemma UnlockOwnSide(s: Queue, t: Tid, ok: bool, c: Call)
    requires SideInv(s, c.side) && TaskOf(s, t) == Busy(AtUnlock(ok), c)
    ensures SideInv(UnlockStep(s, t, c), c.side)
  {
    var s' := UnlockStep(s, t, c);
    if Serial(s, c.side) {
      GuardsDepart(Use(s, c.side), Zones(s, c.side), Zones(s', c.side), t);
    } else {
      forall u: Tid ensures Zones(s', c.side)(u) != Gate {
        assert Zones(s, c.side)(u) != Gate;
      }
    }
    SideWithLock(s, s', c.side);
  }

  lemma UnlockSides(s: Queue, t: Tid, ok: bool, c: Call)
    requires SideInv(s, c.side) && SideInv(s, Other(c.side)) && TaskOf(s, t) == Busy(AtUnlock(ok), c)
    ensures SideInv(UnlockStep(s, t, c), Get) && SideInv(UnlockStep(s, t, c), Put)
  {
    UnlockOwnSide(s, t, ok, c);
    SideSame(s, UnlockStep(s, t, c), Other(c.side));
  }

  lemma WaitQueue(s: Queue, t: Tid, c: Call)
    requires SideInv(s, c.side) && TaskOf(s, t) == Busy(AtWait, c)
    ensures var s' := WaitStep(s, t, c);
      && Semaphores.ValidSem(SemOf(s', c.side))
      && forall u: Tid :: u in Names(SemOf(s', c.side).queue) <==> Sleeping(TaskOf(s', u), c.side)
  {
    var s' := WaitStep(s, t, c);
    var m := SemOf(s, c.side);
    assert t !in Names(m.queue);
    Semaphores.StepKeepsValid(m, WaitSem(t, c.prio, c.limit.Never?));
    if m.value == 0 && !c.limit.Never? {
      InsertKeepsValid(m.queue, Entry(t, c.prio, m.clock), m.clock);
    }
    forall u: Tid ensures u in Names(SemOf(s', c.side).queue) <==> Sleeping(TaskOf(s', u), c.side) {
      assert u in Names(m.queue) <==> Sleeping(TaskOf(s, u), c.side);
    }
  }

  lemma WaitSides(s: Queue, t: Tid, c: Call)
    requires SideInv(s, c.side) && SideInv(s, Other(c.side)) && TaskOf(s, t) == Busy(AtWait, c)
    ensures SideInv(WaitStep(s, t, c), Get) && SideInv(WaitStep(s, t, c), Put)
  {
    var s' := WaitStep(s, t, c);
    WaitQueue(s, t, c);
    OrderlySame(s, s', c.side);
    SideSame(s, s', Other(c.side));
  }

  /** A statement inside one side that leaves semaphores and locks alone. */
  lemma InsideSides(s: Queue, s': Queue, t: Tid, p: Phase, c: Call, k: Task)
    requires SideInv(s, Get) && SideInv(s, Put) && TaskOf(s, t) == Busy(p, c) && !p.AtMutex? && !p.Queued?
    requires k.Busy? && k.call.side == c.side && !k.phase.AtMutex? && !k.phase.Queued?
    requires s'.tasks == s.tasks[t := k] && s'.useGet == s.useGet && s'.usePut == s.usePut && SameAccess(s, s')
    requires s'.semGet == s.semGet && s'.semPut == s.semPut
    ensures SideInv(s', Get) && SideInv(s', Put)
  {
    SideSame(s, s', Get);
    SideSame(s, s', Put);
  }

  lemma SignalQueue(s: Queue, t: Tid, c: Call)
    requires SideInv(s, Other(c.side)) && TaskOf(s, t) == Busy(AtSignal, c)
    requires var q := SemOf(s, Other(c.side)).queue; q != [] ==> Sleeping(TaskOf(s, Last(q).who), Other(c.side))
    ensures var s', o := SignalStep(s, t, c), Other(c.side);
      && Semaphores.ValidSem(SemOf(s', o))
      && forall u: Tid :: u in Names(SemOf(s', o).queue) <==> Sleeping(TaskOf(s', u), o)
  {
    var s', o := SignalStep(s, t, c), Other(c.side);
    var m := SemOf(s, o);
    Semaphores.StepKeepsValid(m, SignalSem);
    if m.queue != [] { FrontKeepsValid(m.queue, m.clock); }
    forall u: Tid ensures u in Names(SemOf(s', o).queue) <==> Sleeping(TaskOf(s', u), o) {
      assert u in Names(m.queue) <==> Sleeping(TaskOf(s, u), o);
    }
  }

  /** A task that is woken was asleep on the other side. */
  lemma WokenSleeps(s: Queue, side: Side)
    requires SideInv(s, side)
    ensures var q := SemOf(s, side).queue; q != [] ==> Sleeping(TaskOf(s, Last(q).who), side)
  {
    var q := SemOf(s, side).queue;
    assert q != [] ==> Last(q).who in Names(q);
  }

  lemma SignalOwnSide(s: Queue, t: Tid, c: Call)
    requires SideInv(s, c.side) && TaskOf(s, t) == Busy(AtSignal, c)
    requires var q := SemOf(s, Other(c.side)).queue; q != [] ==> Sleeping(TaskOf(s, Last(q).who), Other(c.side))
    ensures SideInv(SignalStep(s, t, c), c.side)
  {
    SideSame(s, SignalStep(s, t, c), c.side);
  }

  lemma SignalOtherSide(s: Queue, t: Tid, c: Call)
    requires SideInv(s, Other(c.side)) && TaskOf(s, t) == Busy(AtSignal, c)
    requires var q := SemOf(s, Other(c.side)).queue; q != [] ==> Sleeping(TaskOf(s, Last(q).who), Other(c.side))
    ensures SideInv(SignalStep(s, t, c), Other(c.side))
  {
    SignalQueue(s, t, c);
    OrderlySame(s, SignalStep(s, t, c), Other(c.side));
  }

  lemma SignalSides(s: Queue, t: Tid, c: Call)
    requires SideInv(s, c.side) && SideInv(s, Other(c.side)) && TaskOf(s, t) == Busy(AtSignal, c)
    ensures SideInv(SignalStep(s, t, c), Get) && SideInv(SignalStep(s, t, c), Put)
  {
    WokenSleeps(s, Other(c.side));
    SignalOwnSide(s, t, c);
    SignalOtherSide(s, t, c);
  }

  /** The same task, but for its priority. */
  predicate Alike(k: Task, k': Task) {
    if k.Idle? then k'.Idle? else k'.Busy? && k'.phase == k.phase && k'.call == k.call.(prio := k'.call.prio)
  }

  lemma AlikeZones(k: Task, k': Task, side: Side)
    requires Alike(k, k')
    ensures UseZone(k', side) == UseZone(k, side) && Sleeping(k', side) == Sleeping(k, side)
    ensures Carries(k') == Carries(k)
  {
  }

  lemma PriorityTask(s: Queue, t: Tid, prio: nat, u: Tid)
    ensures Alike(TaskOf(s, u), TaskOf(PriorityStep(s, t, prio), u))
  {
  }

  lemma PriorityFrame(s: Queue, t: Tid, prio: nat)
    ensures var s' := PriorityStep(s, t, prio);
      && SameAccess(s, s')
      && s'.semGet.value == s.semGet.value && s'.semPut.value == s.semPut.value
      && s'.useGet.holder == s.useGet.holder && s'.usePut.holder == s.usePut.holder
      && s'.buf == s.buf && s'.head == s.head && s'.tail == s.tail && s'.sent == s.sent && s'.received == s.received
  {
  }

  lemma PriorityOrderly(s: Queue, t: Tid, prio: nat, side: Side)
    requires Orderly(s, side)
    ensures Orderly(PriorityStep(s, t, prio), side)
  {
    var s' := PriorityStep(s, t, prio);
    forall u: Tid ensures Zones(s', side)(u) == Zones(s, side)(u) {
      PriorityTask(s, t, prio, u);
      AlikeZones(TaskOf(s, u), TaskOf(s', u), side);
    }
    PriorityFrame(s, t, prio);
    if Serial(s, side) {
      GuardsRequeue(Use(s, side), Zones(s, side), Zones(s', side), t, prio);
      assert Use(s', side) == Reprioritize(Use(s, side), t, prio);
    }
  }

  lemma PrioritySide(s: Queue, t: Tid, prio: nat, side: Side)
    requires SideInv(s, side)
    ensures SideInv(PriorityStep(s, t, prio), side)
  {
    var s' := PriorityStep(s, t, prio);
    PriorityOrderly(s, t, prio, side);
    Semaphores.StepKeepsValid(SemOf(s, side), SetPriority(t, prio));
    RequeueKeepsValid(SemOf(s, side).queue, t, prio, SemOf(s, side).clock);
    forall u: Tid ensures u in Names(SemOf(s', side).queue) <==> Sleeping(TaskOf(s', u), side) {
      assert u in Names(SemOf(s, side).queue) <==> Sleeping(TaskOf(s, u), side);
      PriorityTask(s, t, prio, u);
      AlikeZones(TaskOf(s, u), TaskOf(s', u), side);
    }
  }

  // ----- the tokens -----

  lemma CarriersAre(s: Queue)
    ensures forall u: Tid :: u in Carriers(s) <==> Carries(TaskOf(s, u))
  {
  }

  /** What one task does to the set of carriers. */
  lemma CarriersChange(s: Queue, s': Queue, t: Tid)
    requires forall u: Tid :: u != t ==> Carries(TaskOf(s', u)) == Carries(TaskOf(s, u))
    ensures Carriers(s') == if Carries(TaskOf(s', t)) then Carriers(s) + {t} else Carriers(s) - {t}
    ensures |Carriers(s')| == |Carriers(s)|
      + (if Carries(TaskOf(s', t)) then 1 else 0) - (if Carries(TaskOf(s, t)) then 1 else 0)
  {
    CarriersAre(s);
    CarriersAre(s');
    assert Carriers(s') == if Carries(TaskOf(s', t)) then Carriers(s) + {t} else Carriers(s) - {t};
  }

  /** A step of one task that touches no semaphore. */
  lemma FlowSame(s: Queue, s': Queue, t: Tid)
    requires Flow(s) && s'.max == s.max && s'.semGet.value == s.semGet.value && s'.semPut.value == s.semPut.value
    requires forall u: Tid :: Carries(TaskOf(s', u)) == Carries(TaskOf(s, u))
    ensures Flow(s')
  {
    CarriersChange(s, s', t);
  }

  lemma WaitFlow(s: Queue, t: Tid, c: Call)
    requires Flow(s) && TaskOf(s, t) == Busy(AtWait, c)
    ensures Flow(WaitStep(s, t, c))
  {
    CarriersChange(s, WaitStep(s, t, c), t);
  }

  lemma SignalFlow(s: Queue, t: Tid, c: Call)
    requires Flow(s) && TaskOf(s, t) == Busy(AtSignal, c)
    requires var q := SemOf(s, Other(c.side)).queue; q != [] ==> Sleeping(TaskOf(s, Last(q).who), Other(c.side))
    ensures Flow(SignalStep(s, t, c))
  {
    var m := SemOf(s, Other(c.side));
    var mid := Goto(SetSem(s, Other(c.side), Signal(m)), t, AtUnlock(true), c);
    CarriersChange(s, mid, t);
    if m.queue != [] {
      CarriersChange(mid, SignalStep(s, t, c), Last(m.queue).who);
    }
  }

  // ----- every statement keeps it -----

  lemma StartKeepsInv(s: Queue, t: Tid, c: Call)
    requires Inv(s) && Enabled(s, Begin(t, c))
    ensures Inv(Start(s, t, c))
  {
    var s' := Start(s, t, c);
    if !Serial(s, c.side) {
      StartOpen(s, t, c);
    } else if s' != s {
      StartSides(s, t, c, s');
    }
    FlowSame(s, s', t);
  }

  lemma TimeOutKeepsInv(s: Queue, t: Tid)
    requires Inv(s) && Enabled(s, TimeOut(t))
    ensures Inv(Step(s, TimeOut(t)))
  {
    var c := TaskOf(s, t).call;
    if TaskOf(s, t).phase.Queued? { ExpireKeepsInv(s, t, c); } else { GiveUpKeepsInv(s, t, c); }
  }

  lemma ExpireKeepsInv(s: Queue, t: Tid, c: Call)
    requires Inv(s) && TaskOf(s, t) == Busy(Queued, c)
    ensures Inv(TimeOutStep(s, t, Queued, c))
  {
    ExpireSides(s, t, c);
    FlowSame(s, TimeOutStep(s, t, Queued, c), t);
  }

  lemma GiveUpKeepsInv(s: Queue, t: Tid, c: Call)
    requires Inv(s) && TaskOf(s, t) == Busy(AtMutex, c) && Use(s, c.side).holder != Some(t)
    ensures Inv(TimeOutStep(s, t, AtMutex, c))
  {
    GiveUpSides(s, t, c);
    FlowSame(s, TimeOutStep(s, t, AtMutex, c), t);
  }

  lemma PriorityKeepsInv(s: Queue, t: Tid, prio: nat)
    requires Inv(s)
    ensures Inv(PriorityStep(s, t, prio))
  {
    var s' := PriorityStep(s, t, prio);
    PrioritySide(s, t, prio, Get);
    PrioritySide(s, t, prio, Put);
    forall u: Tid ensures Carries(TaskOf(s', u)) == Carries(TaskOf(s, u)) {
      PriorityTask(s, t, prio, u);
      AlikeZones(TaskOf(s, u), TaskOf(s', u), Get);
    }
    PriorityFrame(s, t, prio);
    FlowSame(s, s', t);
  }

  /** The statements between taking a token and signalling. */
  lemma CarryKeepsInv(s: Queue, t: Tid, p: Phase, c: Call)
    requires Inv(s) && TaskOf(s, t) == Busy(p, c) && (p.Copy? || p.Bump? || p.Wrap?)
    ensures Inv(Do(s, t, p, c))
  {
    var s' := Do(s, t, p, c);
    InsideSides(s, s', t, p, c, s'.tasks[t]);
    FlowSame(s, s', t);
  }

  lemma StepKeepsInv(s: Queue, a: Action)
    requires Inv(s) && Enabled(s, a)
    ensures Inv(Step(s, a))
  {
    match a
    case Begin(t, c) => StartKeepsInv(s, t, c);
    case TimeOut(t) => TimeOutKeepsInv(s, t);
    case Prioritize(t, prio) => PriorityKeepsInv(s, t, prio);
    case Advance(t) => AdvanceKeepsInv(s, t, TaskOf(s, t).phase, TaskOf(s, t).call);
  }

  lemma AdvanceKeepsInv(s: Queue, t: Tid, p: Phase, c: Call)
    requires Inv(s) && Enabled(s, Advance(t)) && TaskOf(s, t) == Busy(p, c)
    ensures Inv(Do(s, t, p, c))
  {
    match p
    case AtMutex => PassKeepsInv(s, t, c);
    case AtWait => WaitKeepsInv(s, t, c);
    case AtSignal => SignalKeepsInv(s, t, c);
    case AtUnlock(ok) => UnlockKeepsInv(s, t, ok, c);
    case _ => CarryKeepsInv(s, t, p, c);
  }

  lemma PassKeepsInv(s: Queue, t: Tid, c: Call)
    requires Inv(s) && TaskOf(s, t) == Busy(AtMutex, c) && Ready(s, t)
    ensures Inv(Goto(s, t, AtWait, c))
  {
    PassSides(s, t, c);
    FlowSame(s, Goto(s, t, AtWait, c), t);
  }

  lemma WaitKeepsInv(s: Queue, t: Tid, c: Call)
    requires Inv(s) && TaskOf(s, t) == Busy(AtWait, c)
    ensures Inv(WaitStep(s, t, c))
  {
    WaitSides(s, t, c);
    WaitFlow(s, t, c);
  }

  lemma SignalKeepsInv(s: Queue, t: Tid, c: Call)
    requires Inv(s) && TaskOf(s, t) == Busy(AtSignal, c)
    ensures Inv(SignalStep(s, t, c))
  {
    SignalSides(s, t, c);
    WokenSleeps(s, Other(c.side));
    SignalFlow(s, t, c);
  }

  lemma UnlockKeepsInv(s: Queue, t: Tid, ok: bool, c: Call)
    requires Inv(s) && TaskOf(s, t) == Busy(AtUnlock(ok), c)
    ensures Inv(UnlockStep(s, t, c))
  {
    UnlockSides(s, t, ok, c);
    FlowSame(s, UnlockStep(s, t, c), t);
  }

  // ----- one user at a time on either side: the slots -----

  /** How far the user of a side is with its token. */
  datatype Stage = NoToken | Copying | Bumping | Wrapping | Signalling

  function StageOf(k: Task, side: Side): Stage {
    if k.Idle? || k.call.side != side then NoToken
    else match k.phase
      case Copy => Copying
      case Bump => Bumping
      case Wrap => Wrapping
      case AtSignal => Signalling
      case _ => NoToken
  }

  function StageAt(s: Queue, side: Side): Stage {
    if Use(s, side).holder.None? then NoToken else StageOf(TaskOf(s, Use(s, side).holder.value), side)
  }

  function One(b: bool): nat { if b then 1 else 0 }

  /** The user has copied its message but not signalled yet. */
  function Unsignalled(g: Stage): nat { One(g.Bumping? || g.Wrapping? || g.Signalling?) }

  ghost predicate TokenInv(s: Queue) {
    var g, p := StageAt(s, Get), StageAt(s, Put);
    && s.semGet.value == |s.sent| - Unsignalled(p) - |s.received| - One(g.Copying?)
    && s.semPut.value == s.max - |s.sent| - One(p.Copying?) + |s.received| - Unsignalled(g)
  }

  /** The slot of message number `n`. */
  function Slot(max: nat, n: nat): (i: nat)
    requires max > 0
    ensures i < max
  {
    n % max
  }

  /** Where a pointer is after `n` messages, or in the middle of its update for the last of them. */
  predicate PointsTo(i: nat, max: nat, n: nat, g: Stage)
    requires max > 0
  {
    if g.Bumping? then n > 0 && i == Slot(max, n - 1)
    else if g.Wrapping? then n > 0 && i == Slot(max, n - 1) + 1
    else i == Slot(max, n)
  }

  ghost predicate SlotInv(s: Queue) {
    && 0 < s.max == |s.buf|
    && |s.received| <= |s.sent| <= |s.received| + s.max
    && PointsTo(s.head, s.max, |s.received|, StageAt(s, Get))
    && PointsTo(s.tail, s.max, |s.sent|, StageAt(s, Put))
    && s.received == s.sent[..|s.received|]
    && forall n :: |s.received| <= n < |s.sent| ==> s.buf[Slot(s.max, n)] == s.sent[n]
  }

  ghost predicate Counts(s: Queue) { TokenInv(s) && SlotInv(s) }

  lemma SlotNext(max: nat, n: nat)
    requires max > 0
    ensures Next(max, Slot(max, n)) == Slot(max, n + 1)
  {
    var q, r := n / max, n % max;
    assert n == q * max + r;
    if r + 1 == max {
      assert n + 1 == (q + 1) * max + 0;
      DivModUnique(max, n + 1, q + 1, 0);
    } else {
      assert n + 1 == q * max + (r + 1);
      DivModUnique(max, n + 1, q, r + 1);
    }
  }

  lemma DivModUnique(d: nat, n: nat, q: nat, r: nat)
    requires d > 0 && n == q * d + r && r < d
    ensures n / d == q && n % d == r
  {
    var q', r' := n / d, n % d;
    assert n == q' * d + r';
    if q' < q {
      TimesRises(q' + 1, q, d);
    } else if q' > q {
      TimesRises(q + 1, q', d);
    }
  }

  lemma TimesRises(a: nat, b: nat, d: nat)
    requires a <= b
    ensures a * d <= b * d
  {
  }

  /** Two messages less than a lap apart have different slots. */
  lemma SlotsDiffer(max: nat, a: nat, b: nat)
    requires max > 0 && a < b < a + max
    ensures Slot(max, a) != Slot(max, b)
  {
    var q, r := a / max, a % max;
    var d := b - a;
    assert b == q * max + (r + d);
    if r + d < max {
      DivModUnique(max, b, q, r + d);
    } else {
      assert b == (q + 1) * max + (r + d - max);
      DivModUnique(max, b, q + 1, r + d - max);
    }
  }

  /** A task past the mutex of its side is the user of that side. */
  lemma InsideIsUser(s: Queue, t: Tid, p: Phase, c: Call)
    requires Orderly(s, c.side) && Serial(s, c.side) && TaskOf(s, t) == Busy(p, c) && !p.AtMutex?
    ensures Use(s, c.side).holder == Some(t)
  {
    assert Zones(s, c.side)(t) == Inside;
  }

  /** Nothing moved but locks and queues. */
  lemma SameCounts(s: Queue, s': Queue)
    requires s'.max == s.max && s'.buf == s.buf && s'.head == s.head && s'.tail == s.tail
    requires s'.sent == s.sent && s'.received == s.received
    requires s'.semGet.value == s.semGet.value && s'.semPut.value == s.semPut.value
    requires StageAt(s', Get) == StageAt(s, Get) && StageAt(s', Put) == StageAt(s, Put)
    requires Counts(s)
    ensures Counts(s')
  {
  }

  /** The other side's user is untouched by what `t` does on its own. */
  lemma StageSame(s: Queue, s': Queue, t: Tid, side: Side)
    requires Orderly(s, side) && Serial(s, side) && UseZone(TaskOf(s, t), side) == Away && Use(s', side) == Use(s, side)
    requires forall u: Tid :: u != t ==> TaskOf(s', u) == TaskOf(s, u)
    ensures StageAt(s', side) == StageAt(s, side)
  {
    assert Zones(s, side)(t) == Away;
  }

  lemma StartStages(s: Queue, t: Tid, c: Call)
    requires Inv(s) && BothSerial(s) && TaskOf(s, t).Idle?
    ensures var s' := Goto(SetUse(s, c.side, Acquire(Use(s, c.side), t, c.prio, false)), t, AtMutex, c);
      StageAt(s', Get) == StageAt(s, Get) && StageAt(s', Put) == StageAt(s, Put)
  {
    var s' := Goto(SetUse(s, c.side, Acquire(Use(s, c.side), t, c.prio, false)), t, AtMutex, c);
    assert Zones(s, c.side)(t) == Away;
    StageSame(s, s', t, Other(c.side));
  }

  lemma StartCounts(s: Queue, t: Tid, c: Call)
    requires Inv(s) && BothSerial(s) && Counts(s) && TaskOf(s, t).Idle?
    ensures Counts(Start(s, t, c))
  {
    if Start(s, t, c) != s {
      StartStages(s, t, c);
      SameCounts(s, Start(s, t, c));
    }
  }

  lemma TimeOutCounts(s: Queue, t: Tid)
    requires Inv(s) && BothSerial(s) && Counts(s) && Enabled(s, TimeOut(t))
    ensures Counts(Step(s, TimeOut(t)))
  {
    var c := TaskOf(s, t).call;
    if TaskOf(s, t).phase.Queued? { ExpireCounts(s, t, c); } else { GiveUpCounts(s, t, c); }
  }

  lemma ExpireCounts(s: Queue, t: Tid, c: Call)
    requires Inv(s) && BothSerial(s) && Counts(s) && TaskOf(s, t) == Busy(Queued, c)
    ensures Counts(TimeOutStep(s, t, Queued, c))
  {
    var s' := TimeOutStep(s, t, Queued, c);
    InsideIsUser(s, t, Queued, c);
    StageSame(s, s', t, Other(c.side));
    SameCounts(s, s');
  }

  lemma GiveUpCounts(s: Queue, t: Tid, c: Call)
    requires Inv(s) && BothSerial(s) && Counts(s)
    requires TaskOf(s, t) == Busy(AtMutex, c) && Use(s, c.side).holder != Some(t)
    ensures Counts(TimeOutStep(s, t, AtMutex, c))
  {
    var s' := TimeOutStep(s, t, AtMutex, c);
    StageSame(s, s', t, Other(c.side));
    SameCounts(s, s');
  }

  lemma PriorityCounts(s: Queue, t: Tid, prio: nat)
    requires Counts(s)
    ensures Counts(PriorityStep(s, t, prio))
  {
    var s' := PriorityStep(s, t, prio);
    PriorityFrame(s, t, prio);
    PriorityStage(s, t, prio, Get);
    PriorityStage(s, t, prio, Put);
    SameCounts(s, s');
  }

  lemma PriorityStage(s: Queue, t: Tid, prio: nat, side: Side)
    ensures StageAt(PriorityStep(s, t, prio), side) == StageAt(s, side)
  {
    PriorityFrame(s, t, prio);
    if Use(s, side).holder.Some? { PriorityTask(s, t, prio, Use(s, side).holder.value); }
  }

  lemma PassCounts(s: Queue, t: Tid, c: Call)
    requires Inv(s) && BothSerial(s) && Counts(s) && TaskOf(s, t) == Busy(AtMutex, c) && Ready(s, t)
    ensures Counts(Goto(s, t, AtWait, c))
  {
    StageSame(s, Goto(s, t, AtWait, c), t, Other(c.side));
    SameCounts(s, Goto(s, t, AtWait, c));
  }

  lemma UnlockStage(s: Queue, s': Queue, t: Tid, side: Side)
    requires Orderly(s, side) && Serial(s, side) && Use(s', side) == Release(Use(s, side))
    requires UseZone(TaskOf(s, t), side) == Inside
    requires forall u: Tid :: u != t ==> TaskOf(s', u) == TaskOf(s, u)
    ensures StageAt(s', side) == NoToken
  {
    assert Zones(s, side)(t) == Inside;
    var l := Use(s, side);
    ReleaseValid(l);
    if l.queue != [] {
      var w := Last(l.queue).who;
      assert w in Names(l.queue) && Zones(s, side)(w) == Gate;
    }
  }

  lemma UnlockCounts(s: Queue, t: Tid, ok: bool, c: Call)
    requires Inv(s) && BothSerial(s) && Counts(s) && TaskOf(s, t) == Busy(AtUnlock(ok), c)
    ensures Counts(UnlockStep(s, t, c))
  {
    UnlockStages(s, t, ok, c);
    SameCounts(s, UnlockStep(s, t, c));
  }

  lemma UnlockStages(s: Queue, t: Tid, ok: bool, c: Call)
    requires Inv(s) && BothSerial(s) && TaskOf(s, t) == Busy(AtUnlock(ok), c)
    ensures var s' := UnlockStep(s, t, c);
      StageAt(s', Get) == StageAt(s, Get) && StageAt(s', Put) == StageAt(s, Put)
  {
    var s' := UnlockStep(s, t, c);
    InsideIsUser(s, t, AtUnlock(ok), c);
    StageSame(s, s', t, Other(c.side));
    UnlockStage(s, s', t, c.side);
  }

  lemma TakeCounts(s: Queue, s': Queue, side: Side)
    requires Counts(s) && StageAt(s, side).NoToken? && SemOf(s, side).value > 0
    requires s'.max == s.max && s'.buf == s.buf && s'.head == s.head && s'.tail == s.tail
    requires s'.sent == s.sent && s'.received == s.received
    requires SemOf(s', side).value == SemOf(s, side).value - 1 && SemOf(s', Other(side)) == SemOf(s, Other(side))
    requires StageAt(s', side).Copying? && StageAt(s', Other(side)) == StageAt(s, Other(side))
    ensures Counts(s')
  {
  }

  lemma WaitStage(s: Queue, t: Tid, c: Call)
    requires Inv(s) && BothSerial(s) && TaskOf(s, t) == Busy(AtWait, c)
    ensures var s' := WaitStep(s, t, c);
      && StageAt(s, c.side).NoToken? && StageAt(s', Other(c.side)) == StageAt(s, Other(c.side))
      && StageAt(s', c.side) == (if SemOf(s, c.side).value > 0 then Copying else NoToken)
  {
    InsideIsUser(s, t, AtWait, c);
    StageSame(s, WaitStep(s, t, c), t, Other(c.side));
  }

  lemma WaitCounts(s: Queue, t: Tid, c: Call)
    requires Inv(s) && BothSerial(s) && Counts(s) && TaskOf(s, t) == Busy(AtWait, c)
    ensures Counts(WaitStep(s, t, c))
  {
    var s' := WaitStep(s, t, c);
    WaitStage(s, t, c);
    if SemOf(s, c.side).value > 0 { TakeCounts(s, s', c.side); } else { SameCounts(s, s'); }
  }

  /** The user of a side moves on with its token. */
  lemma CarryStages(s: Queue, t: Tid, p: Phase, c: Call)
    requires Inv(s) && BothSerial(s) && TaskOf(s, t) == Busy(p, c) && (p.Copy? || p.Bump? || p.Wrap?)
    ensures var s' := Do(s, t, p, c);
      && StageAt(s', Other(c.side)) == StageAt(s, Other(c.side))
      && StageAt(s, c.side) == (match p case Copy => Copying case Bump => Bumping case _ => Wrapping)
      && StageAt(s', c.side) == (match p case Copy => Bumping case Bump => Wrapping case _ => Signalling)
  {
    InsideIsUser(s, t, p, c);
    StageSame(s, Do(s, t, p, c), t, Other(c.side));
  }

  lemma GetCopyCounts(s: Queue, t: Tid, c: Call)
    requires Inv(s) && BothSerial(s) && Counts(s) && TaskOf(s, t) == Busy(Copy, c) && c.side.Get?
    ensures Counts(CopyStep(s, t, c))
  {
    CarryStages(s, t, Copy, c);
    var n := |s.received|;
    assert s.buf[Slot(s.max, n)] == s.sent[n];
    assert s.sent[..n + 1] == s.sent[..n] + [s.sent[n]];
  }

  lemma PutCopyCounts(s: Queue, t: Tid, c: Call)
    requires Inv(s) && BothSerial(s) && Counts(s) && TaskOf(s, t) == Busy(Copy, c) && c.side.Put?
    ensures Counts(CopyStep(s, t, c))
  {
    CarryStages(s, t, Copy, c);
    var s' := CopyStep(s, t, c);
    forall n | |s'.received| <= n < |s'.sent| ensures s'.buf[Slot(s.max, n)] == s'.sent[n] {
      if n < |s.sent| { SlotsDiffer(s.max, n, |s.sent|); }
    }
  }

  lemma BumpCounts(s: Queue, t: Tid, c: Call)
    requires Inv(s) && BothSerial(s) && Counts(s) && TaskOf(s, t) == Busy(Bump, c)
    ensures Counts(BumpStep(s, t, c))
  {
    CarryStages(s, t, Bump, c);
    PointerCounts(s, BumpStep(s, t, c), c.side);
  }

  /** A pointer update under way. */
  lemma PointerCounts(s: Queue, s': Queue, side: Side)
    requires Counts(s) && Unsignalled(StageAt(s, side)) == Unsignalled(StageAt(s', side)) == 1
    requires StageAt(s', Other(side)) == StageAt(s, Other(side))
    requires s'.max == s.max && s'.buf == s.buf && s'.sent == s.sent && s'.received == s.received
    requires s'.semGet == s.semGet && s'.semPut == s.semPut && PointerOf(s', Other(side)) == PointerOf(s, Other(side))
    requires s.max > 0 && PointsTo(PointerOf(s', side), s.max, Moved(s, side), StageAt(s', side))
    ensures Counts(s')
  {
  }

  /** The messages a side has copied so far. */
  function Moved(s: Queue, side: Side): nat { if side.Get? then |s.received| else |s.sent| }

  lemma WrapCounts(s: Queue, t: Tid, c: Call)
    requires Inv(s) && BothSerial(s) && Counts(s) && TaskOf(s, t) == Busy(Wrap, c)
    ensures Counts(WrapStep(s, t, c))
  {
    CarryStages(s, t, Wrap, c);
    WrapPoints(PointerOf(s, c.side), s.max, Moved(s, c.side));
    PointerCounts(s, WrapStep(s, t, c), c.side);
  }

  lemma WrapPoints(i: nat, max: nat, n: nat)
    requires max > 0 && PointsTo(i, max, n, Wrapping)
    ensures PointsTo(if i == max then 0 else i, max, n, Signalling)
  {
    SlotNext(max, n - 1);
  }

  lemma GiveCounts(s: Queue, s': Queue, side: Side)
    requires Counts(s) && StageAt(s, side).Signalling? && StageAt(s', side).NoToken?
    requires s'.max == s.max && s'.buf == s.buf && s'.head == s.head && s'.tail == s.tail
    requires s'.sent == s.sent && s'.received == s.received && SemOf(s', side) == SemOf(s, side)
    requires
      || (SemOf(s', Other(side)).value == SemOf(s, Other(side)).value + 1
          && StageAt(s', Other(side)) == StageAt(s, Other(side)))
      || (SemOf(s', Other(side)).value == SemOf(s, Other(side)).value
          && StageAt(s, Other(side)).NoToken? && StageAt(s', Other(side)).Copying?)
    ensures Counts(s')
  {
  }

  lemma SignalStage(s: Queue, t: Tid, c: Call)
    requires Inv(s) && BothSerial(s) && TaskOf(s, t) == Busy(AtSignal, c)
    ensures var s', o := SignalStep(s, t, c), Other(c.side);
      && StageAt(s, c.side).Signalling? && StageAt(s', c.side).NoToken?
      && (SemOf(s, o).queue == [] ==> StageAt(s', o) == StageAt(s, o))
      && (SemOf(s, o).queue != [] ==> StageAt(s, o).NoToken? && StageAt(s', o).Copying?)
  {
    var m := SemOf(s, Other(c.side));
    InsideIsUser(s, t, AtSignal, c);
    WokenSleeps(s, Other(c.side));
    if m.queue == [] {
      StageSame(s, SignalStep(s, t, c), t, Other(c.side));
    } else {
      InsideIsUser(s, Last(m.queue).who, Queued, TaskOf(s, Last(m.queue).who).call);
    }
  }

  lemma SignalCounts(s: Queue, t: Tid, c: Call)
    requires Inv(s) && BothSerial(s) && Counts(s) && TaskOf(s, t) == Busy(AtSignal, c)
    ensures Counts(SignalStep(s, t, c))
  {
    var m := SemOf(s, Other(c.side));
    SignalStage(s, t, c);
    if m.queue == [] {
      assert SemOf(SignalStep(s, t, c), Other(c.side)).value == m.value + 1;
    } else {
      assert SemOf(SignalStep(s, t, c), Other(c.side)).value == m.value;
    }
    GiveCounts(s, SignalStep(s, t, c), c.side);
  }

  lemma StepKeepsCounts(s: Queue, a: Action)
    requires Inv(s) && BothSerial(s) && Counts(s) && Enabled(s, a)
    ensures Counts(Step(s, a))
  {
    match a
    case Begin(t, c) => StartCounts(s, t, c);
    case TimeOut(t) => TimeOutCounts(s, t);
    case Prioritize(t, prio) => PriorityCounts(s, t, prio);
    case Advance(t) =>
      var c := TaskOf(s, t).call;
      match TaskOf(s, t).phase {
        case AtMutex => PassCounts(s, t, c);
        case AtWait => WaitCounts(s, t, c);
        case Copy => if c.side.Get? { GetCopyCounts(s, t, c); } else { PutCopyCounts(s, t, c); }
        case Bump => BumpCounts(s, t, c);
        case Wrap => WrapCounts(s, t, c);
        case AtSignal => SignalCounts(s, t, c);
        case AtUnlock(ok) => UnlockCounts(s, t, ok, c);
      }
  }

  // ----- whole runs -----

  ghost predicate Possible(s: Queue, acts: seq<Action>)
    decreases acts
  {
    acts == [] || (Enabled(s, acts[0]) && Possible(Step(s, acts[0]), acts[1..]))
  }

  function Run(s: Queue, acts: seq<Action>): Queue
    decreases acts
  {
    if acts == [] then s else Run(Step(s, acts[0]), acts[1..])
  }

  lemma StepKeepsAccess(s: Queue, a: Action)
    ensures SameAccess(s, Step(s, a))
  {
    if a.Prioritize? { PriorityFrame(s, a.t, a.prio); }
  }

  lemma {:induction false} RunKeepsInv(s: Queue, acts: seq<Action>)
    requires Inv(s) && (BothSerial(s) ==> Counts(s)) && Possible(s, acts)
    ensures Inv(Run(s, acts)) && (BothSerial(s) ==> Counts(Run(s, acts))) && SameAccess(s, Run(s, acts))
    decreases acts
  {
    if acts != [] {
      StepKeepsInv(s, acts[0]);
      StepKeepsAccess(s, acts[0]);
      if BothSerial(s) { StepKeepsCounts(s, acts[0]); }
      RunKeepsInv(Step(s, acts[0]), acts[1..]);
    }
  }

  ghost predicate Reachable(s: Queue) {
    exists max: nat, blank: Msg, accessGet: Access, accessPut: Access, acts: seq<Action> ::
      max > 0 && Possible(Init(max, blank, accessGet, accessPut), acts)
        && s == Run(Init(max, blank, accessGet, accessPut), acts)
  }

  lemma InitInv(max: nat, blank: Msg, accessGet: Access, accessPut: Access)
    requires max > 0
    ensures Inv(Init(max, blank, accessGet, accessPut)) && Counts(Init(max, blank, accessGet, accessPut))
  {
    assert Carriers(Init(max, blank, accessGet, accessPut)) == {};
  }

  lemma ReachableInv(s: Queue)
    requires Reachable(s)
    ensures Inv(s) && (BothSerial(s) ==> Counts(s))
  {
    var max: nat, blank: Msg, accessGet: Access, accessPut: Access, acts: seq<Action> :|
      max > 0 && Possible(Init(max, blank, accessGet, accessPut), acts)
        && s == Run(Init(max, blank, accessGet, accessPut), acts);
    InitInv(max, blank, accessGet, accessPut);
    RunKeepsInv(Init(max, blank, accessGet, accessPut), acts);
  }

  /**
   The tokens of the two semaphores and those that tasks have taken and not passed on add up to the number of slots,
   always, with any number of users on either side.
   */
  lemma TokenLaw(s: Queue)
    requires Reachable(s)
    ensures s.semGet.value + s.semPut.value + |Carriers(s)| == s.max
  {
    ReachableInv(s);
  }

  /**
   With both sides serialized messages come out in the order they went in, none lost, repeated or invented: what was
   received is a prefix of what was sent, and the rest is in the slots, oldest first.
   */
  lemma FifoLaw(s: Queue)
    requires Reachable(s) && BothSerial(s)
    ensures s.max == |s.buf| > 0 && s.received <= s.sent && |s.sent| - |s.received| <= s.max
    ensures forall n :: |s.received| <= n < |s.sent| ==> s.buf[Slot(s.max, n)] == s.sent[n]
  {
    ReachableInv(s);
  }

  /** With both sides serialized every message is copied inside the buffer. */
  lemma CopiesStayInside(s: Queue, t: Tid, c: Call)
    requires Reachable(s) && BothSerial(s) && TaskOf(s, t) == Busy(Copy, c)
    ensures PointerOf(s, c.side) < |s.buf|
    ensures CopyStep(s, t, c).sent == (if c.side.Put? then s.sent + [c.msg] else s.sent)
    ensures |CopyStep(s, t, c).received| == |s.received| + (if c.side.Get? then 1 else 0)
  {
    ReachableInv(s);
    CarryStages(s, t, Copy, c);
  }

  /** A reader and a writer copying at the same time touch different slots, inside the buffer. */
  lemma SlotsNeverShared(s: Queue, t: Tid, u: Tid)
    requires Reachable(s) && BothSerial(s)
    requires TaskOf(s, t).Busy? && TaskOf(s, t).phase.Copy? && TaskOf(s, t).call.side.Get?
    requires TaskOf(s, u).Busy? && TaskOf(s, u).phase.Copy? && TaskOf(s, u).call.side.Put?
    ensures s.head < |s.buf| && s.tail < |s.buf| && s.head != s.tail
  {
    ReachableInv(s);
    InsideIsUser(s, t, Copy, TaskOf(s, t).call);
    InsideIsUser(s, u, Copy, TaskOf(s, u).call);
    SlotsDiffer(s.max, |s.received|, |s.sent|);
  }

  /** No two tasks of a serialized side are ever between taking a token and signalling. */
  lemma OneUserPerSide(s: Queue, t: Tid, u: Tid)
    requires Reachable(s) && TaskOf(s, t).Busy? && TaskOf(s, u).Busy?
    requires TaskOf(s, t).call.side == TaskOf(s, u).call.side && Serial(s, TaskOf(s, t).call.side)
    requires !TaskOf(s, t).phase.AtMutex? && !TaskOf(s, u).phase.AtMutex?
    ensures t == u
  {
    ReachableInv(s);
    InsideIsUser(s, t, TaskOf(s, t).phase, TaskOf(s, t).call);
    InsideIsUser(s, u, TaskOf(s, u).phase, TaskOf(s, u).call);
  }

  /** A task queued at the semaphore of its side means that the semaphore is empty. */
  lemma QueuedMeansEmpty(s: Queue, t: Tid)
    requires SideInv(s, Get) && SideInv(s, Put) && TaskOf(s, t).Busy? && TaskOf(s, t).phase.Queued?
    ensures SemOf(s, TaskOf(s, t).call.side).value == 0
  {
    assert t in Names(SemOf(s, TaskOf(s, t).call.side).queue);
  }

  /** With both sides serialized a getter and a putter never wait for a token at the same time. */
  lemma NeverBothQueued(s: Queue, t: Tid, u: Tid)
    requires Reachable(s) && BothSerial(s)
    requires TaskOf(s, t).Busy? && TaskOf(s, t).phase.Queued? && TaskOf(s, t).call.side.Get?
    ensures !(TaskOf(s, u).Busy? && TaskOf(s, u).phase.Queued? && TaskOf(s, u).call.side.Put?)
  {
    ReachableInv(s);
    QueuedMeansEmpty(s, t);
    InsideIsUser(s, t, Queued, TaskOf(s, t).call);
    if TaskOf(s, u).Busy? && TaskOf(s, u).phase.Queued? && TaskOf(s, u).call.side.Put? {
      QueuedMeansEmpty(s, u);
      InsideIsUser(s, u, Queued, TaskOf(s, u).call);
    }
  }

  /** A call in progress finds some task of its side able to go on, or one waiting for a token. */
  lemma SideGoesOn(s: Queue, t: Tid) returns (v: Tid)
    requires SideInv(s, Get) && SideInv(s, Put) && TaskOf(s, t).Busy?
    ensures Enabled(s, Advance(v)) || Sleeping(TaskOf(s, v), TaskOf(s, t).call.side)
  {
    v := t;
    var side := TaskOf(s, t).call.side;
    if TaskOf(s, t).phase.AtMutex? {
      AtMutexIsSerial(s, t, TaskOf(s, t).call);
      assert Zones(s, side)(t) == Gate;
      v := Use(s, side).holder.value;
      assert Zones(s, side)(v) != Away;
    }
  }

  /** No deadlock: while a get call and a put call are in progress some task can execute its next statement. */
  lemma SomebodyGoesOn(s: Queue, t: Tid, u: Tid)
    requires Reachable(s) && TaskOf(s, t).Busy? && TaskOf(s, t).call.side.Get?
    requires TaskOf(s, u).Busy? && TaskOf(s, u).call.side.Put?
    ensures exists v :: Enabled(s, Advance(v))
  {
    ReachableInv(s);
    var g := SideGoesOn(s, t);
    var p := SideGoesOn(s, u);
    if Sleeping(TaskOf(s, g), Get) && Sleeping(TaskOf(s, p), Put) {
      QueuedMeansEmpty(s, g);
      QueuedMeansEmpty(s, p);
      assert Carriers(s) != {};
      var v :| v in Carriers(s);
      assert Enabled(s, Advance(v));
    }
  }

  // ----- the slots in memory -----

  /** The buffer of a message queue: `head` and `tail` are offsets of the slots they point to. */
  class SlotBuffer {
    const buf: array<Byte>
    const max: nat
    const msgSize: nat
    var head: nat
    var tail: nat

    /** The memory shows the slots and the pointers of `s`. */
    ghost predicate Shows(s: Queue)
      reads this, buf
    {
      && max == s.max == |s.buf| && msgSize > 0 && buf.Length == max * msgSize
      && head == s.head * msgSize && tail == s.tail * msgSize
      && forall k :: 0 <= k < max ==> SlotIs(buf[..], k, msgSize, s.buf[k])
    }

    constructor (max: nat, msgSize: nat, ghost accessGet: Access, ghost accessPut: Access)
      requires max > 0 && msgSize > 0
      ensures fresh(buf) && Shows(Init(max, seq(msgSize, i => 0), accessGet, accessPut))
    {
      this.max, this.msgSize := max, msgSize;
      buf := new Byte[max * msgSize](i => 0);
      head, tail := 0, 0;
      new;
      ghost var blank: Msg := seq(msgSize, i => 0);
      forall k | 0 <= k < max ensures SlotIs(buf[..], k, msgSize, blank) {
        SlotFits(k, max, msgSize);
      }
    }

    /** The memcpy of get_msg. */
    method CopyOut(msg: array<Byte>, t: Tid, ghost c: Call, ghost s: Queue)
      requires Shows(s) && c.side.Get? && s.head < max && msg.Length == msgSize && msg != buf
      modifies msg
      ensures Shows(CopyStep(s, t, c)) && CopyStep(s, t, c).received == s.received + [msg[..]]
    {
      SlotFits(s.head, max, msgSize);
      assert SlotIs(buf[..], s.head, msgSize, s.buf[s.head]);
      for i := 0 to msgSize
        invariant msg[..i] == buf[head..head+i]
      {
        msg[i] := buf[head + i];
      }
      assert msg[..] == msg[..msgSize] == s.buf[s.head];
    }

    /** The memcpy of put_msg. */
    method CopyIn(msg: array<Byte>, t: Tid, ghost c: Call, ghost s: Queue)
      requires Shows(s) && c.side.Put? && s.tail < max && msg.Length == msgSize && c.msg == msg[..] && msg != buf
      modifies buf
      ensures Shows(CopyStep(s, t, c))
    {
      SlotFits(s.tail, max, msgSize);
      ghost var was := buf[..];
      WriteSlot(msg);
      forall k | 0 <= k < max ensures SlotIs(buf[..], k, msgSize, CopyStep(s, t, c).buf[k]) {
        assert SlotIs(was, k, msgSize, s.buf[k]);
        SlotWritten(was, buf[..], s.tail, c.msg, msgSize, k, s.buf[k]);
      }
    }

    method WriteSlot(msg: array<Byte>)
      requires msg != buf && msg.Length == msgSize && tail + msgSize <= buf.Length
      modifies buf
      ensures buf[..] == old(buf[..tail]) + msg[..] + old(buf[tail+msgSize..])
    {
      for i := 0 to msgSize
        invariant forall k {:trigger buf[k]} :: tail <= k < tail + i ==> buf[k] == msg[k - tail]
        invariant forall k {:trigger buf[k]} :: 0 <= k < tail || tail + i <= k < buf.Length ==> buf[k] == old(buf[k])
      {
        buf[tail + i] := msg[i];
      }
    }

    /** The pointer update of get_msg and put_msg. */
    method Bump(t: Tid, ghost c: Call, side: Side, ghost s: Queue)
      requires Shows(s) && c.side == side
      modifies this`head, this`tail
      ensures Shows(BumpStep(s, t, c))
    {
      SlotAfter(PointerOf(s, side), msgSize);
      if side.Get? {
        head := head + msgSize;
      } else {
        tail := tail + msgSize;
      }
    }

    /** At the end of the buffer the pointer goes back to the start. */
    method Wrap(t: Tid, ghost c: Call, side: Side, ghost s: Queue)
      requires Shows(s) && c.side == side
      modifies this`head, this`tail
      ensures Shows(WrapStep(s, t, c))
    {
      if PointerOf(s, side) != max { SlotsApart(PointerOf(s, side), max, msgSize); }
      if side.Get? {
        if head == buf.Length { head := 0; }
      } else {
        if tail == buf.Length { tail := 0; }
      }
    }
  }

  /** Slot `k` of the memory holds `msg`. */
  ghost predicate SlotIs(mem: seq<Byte>, k: nat, msgSize: nat, msg: Msg) {
    k * msgSize + msgSize <= |mem| && mem[k*msgSize..k*msgSize+msgSize] == msg
  }

  /** A message written to slot `at`, seen at slot `k`. */
  lemma SlotWritten(was: seq<Byte>, mem: seq<Byte>, at: nat, msg: Msg, msgSize: nat, k: nat, held: Msg)
    requires |msg| == msgSize && at * msgSize + msgSize <= |was| && SlotIs(was, k, msgSize, held)
    requires mem == was[..at*msgSize] + msg + was[at*msgSize+msgSize..]
    ensures SlotIs(mem, k, msgSize, if k == at then msg else held)
  {
    if k != at {
      SlotsApart(k, at, msgSize);
      RangeApart(was, at * msgSize, msg, k * msgSize, msgSize);
    }
  }

  lemma RangeApart(was: seq<Byte>, at: nat, msg: Msg, from: nat, n: nat)
    requires at + |msg| <= |was| && from + n <= |was| && (from + n <= at || at + |msg| <= from)
    ensures (was[..at] + msg + was[at+|msg|..])[from..from+n] == was[from..from+n]
  {
    var r := was[..at] + msg + was[at+|msg|..];
    assert forall k :: from <= k < from + n ==> r[k] == was[k];
  }

  lemma SlotFits(k: nat, max: nat, msgSize: nat)
    requires k < max
    ensures k * msgSize + msgSize <= max * msgSize && (k + 1) * msgSize == k * msgSize + msgSize
  {
    TimesRises(k + 1, max, msgSize);
  }

  lemma SlotAfter(k: nat, msgSize: nat)
    ensures (k + 1) * msgSize == k * msgSize + msgSize
  {
  }

  lemma SlotsApart(j: nat, k: nat, msgSize: nat)
    requires j != k
    ensures j * msgSize + msgSize <= k * msgSize || k * msgSize + msgSize <= j * msgSize
  {
    if j < k { TimesRises(j + 1, k, msgSize); } else { TimesRises(k + 1, j, msgSize); }
  }
}
