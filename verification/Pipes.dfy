/**
 mtask2's pipe over every interleaving of any number of readers and writers: a byte ring under a monitor
 with two conditions, and optional mutexes that serialize whole calls on either side.  A side without a mutex
 may be open to everybody or have one user at a time.

 The monitor and the mutexes appear as the plain locks that Mutexes proves them to implement.  A task moves
 one statement at a time, and the copying loops one byte at a time.
 */
module Pipes {
  import opened Base
  import opened WaitOrder
  import opened Locks
  import opened Rings
  import Mutexes

  type Limit = Mutexes.Limit

  datatype Side = Get | Put

  /**
   One GetPipeTimed or PutPipeTimed call.  `data` holds the bytes to write, or the bytes read so far;
   `done` counts the bytes moved by finished get_data or put_data calls.
   */
  datatype Call = Call(side: Side, want: nat, data: seq<Byte>, all: bool, limit: Limit, prio: nat, done: nat)

  /** What the task executes next inside its call. */
  datatype Phase =
    | AtMutex          // in EnterMutexTimed
    | AtMonitor        // in EnterMonitor
    | Test             // inside the monitor, about to test avail
    | Asleep           // in the queue of its condition
    | Awake(ok: bool)  // woken by a signal (ok) or by its timeout, about to re-enter
    | Reenter(ok: bool)
    | Copy(n: nat, i: nat)
    | Count(n: nat)    // about to update avail
    | AtSignal(n: nat) // about to signal the other side's condition
    | AtLeave(n: nat)  // about to leave the monitor
    | Loop(n: nat)     // get_data or put_data has returned n
    | AtUnlock         // about to leave the mutex

  datatype Task = Idle | Busy(phase: Phase, call: Call)

  datatype Pipe = Pipe(
    size: nat, buf: seq<Byte>, head: nat, tail: nat, avail: nat,
    mon: Lock,
    condGet: seq<Entry<Tid>>, condPut: seq<Entry<Tid>>, clock: nat,
    accessGet: Access, accessPut: Access, mutGet: Lock, mutPut: Lock,
    tasks: map<Tid, Task>,
    written: seq<Byte>, read: seq<Byte>)  // every byte that ever entered and left the ring

  function Other(side: Side): Side { if side.Get? then Put else Get }

  function TaskOf(s: Pipe, t: Tid): Task { if t in s.tasks then s.tasks[t] else Idle }

  function AccessOf(s: Pipe, side: Side): Access { if side.Get? then s.accessGet else s.accessPut }

  /** Calls of this side come one at a time. */
  predicate Serial(s: Pipe, side: Side) { !AccessOf(s, side).Open? }

  predicate BothSerial(s: Pipe) { Serial(s, Get) && Serial(s, Put) }

  function Mut(s: Pipe, side: Side): Lock { if side.Get? then s.mutGet else s.mutPut }

  function SetMut(s: Pipe, side: Side, l: Lock): Pipe {
    if side.Get? then s.(mutGet := l) else s.(mutPut := l)
  }

  function Cond(s: Pipe, side: Side): seq<Entry<Tid>> { if side.Get? then s.condGet else s.condPut }

  function SetCond(s: Pipe, side: Side, q: seq<Entry<Tid>>): Pipe {
    if side.Get? then s.(condGet := q) else s.(condPut := q)
  }

  /** Nothing to read, or no room to write. */
  predicate Stuck(s: Pipe, side: Side) {
    if side.Get? then s.avail == 0 else s.avail == s.size
  }

  /** How many bytes one visit to the monitor will move. */
  function Take(s: Pipe, c: Call): nat
    requires c.done <= c.want && s.avail <= s.size
  {
    Min(c.want - c.done, if c.side.Get? then s.avail else s.size - s.avail)
  }

  /** CreatePipe */
  function Init(size: nat, accessGet: Access, accessPut: Access): Pipe
    requires size > 0
  {
    Pipe(size, seq(size, i => 0), 0, 0, 0, FREE, [], [], 0, accessGet, accessPut, FREE, FREE, map[], [], [])
  }

  // ----- the statements -----

  function Goto(s: Pipe, t: Tid, p: Phase, c: Call): Pipe { s.(tasks := s.tasks[t := Busy(p, c)]) }

  function Quit(s: Pipe, t: Tid): Pipe { s.(tasks := s.tasks[t := Idle]) }

  function EnterMonitor(s: Pipe, t: Tid, c: Call, p: Phase): Pipe {
    Goto(s.(mon := Acquire(s.mon, t, c.prio, false)), t, p, c)
  }

  /** A call begins: on a serialized side it asks for it first, and a call that cannot wait gives up at once. */
  function Start(s: Pipe, t: Tid, c: Call): Pipe {
    if c.want == 0 then s
    else if !Serial(s, c.side) then EnterMonitor(s, t, c, AtMonitor)
    else
      var l := Mut(s, c.side);
      var s' := SetMut(s, c.side, Acquire(l, t, c.prio, c.limit.Never?));
      if l.holder.Some? && c.limit.Never? then s' else Goto(s', t, AtMutex, c)
  }

  /** The emptiness or fullness test, and with it the atomic leave-and-sleep of WaitConditionTimed. */
  function TestStep(s: Pipe, t: Tid, c: Call): Pipe
    requires c.done <= c.want && s.avail <= s.size
  {
    if !Stuck(s, c.side) then Goto(s, t, Copy(Take(s, c), 0), c)
    else
      var s1 := s.(mon := Release(s.mon));
      if c.limit.Never? then EnterMonitor(s1, t, c, Reenter(false))
      else
        var s2 := SetCond(s1, c.side, Insert(Cond(s1, c.side), Entry(t, c.prio, s.clock)));
        Goto(s2.(clock := s.clock + 1), t, Asleep, c)
  }

  /** One byte of the copying loop, or its exit. */
  function CopyStep(s: Pipe, t: Tid, c: Call, n: nat, i: nat): Pipe
    requires s.head < |s.buf| == s.size && s.tail < s.size && (c.side.Put? && i < n ==> c.done + i < |c.data|)
  {
    if i >= n then Goto(s, t, Count(n), c)
    else if c.side.Get? then
      var x := s.buf[s.head];
      Goto(s.(head := Next(s.size, s.head), read := s.read + [x]), t, Copy(n, i + 1), c.(data := c.data + [x]))
    else
      var x := c.data[c.done + i];
      var s' := s.(buf := s.buf[s.tail := x], tail := Next(s.size, s.tail), written := s.written + [x]);
      Goto(s', t, Copy(n, i + 1), c)
  }

  function CountStep(s: Pipe, t: Tid, c: Call, n: nat): Pipe
    requires c.side.Get? ==> n <= s.avail
  {
    Goto(s.(avail := if c.side.Get? then s.avail - n else s.avail + n), t, AtSignal(n), c)
  }

  function SignalStep(s: Pipe, t: Tid, c: Call, n: nat): Pipe {
    var q := Cond(s, Other(c.side));
    if q == [] then Goto(s, t, AtLeave(n), c)
    else
      var w := Last(q).who;
      var s1 := SetCond(s, Other(c.side), Front(q));
      var s2 := if TaskOf(s, w).Busy? then Goto(s1, w, Awake(true), TaskOf(s, w).call) else s1;
      Goto(s2, t, AtLeave(n), c)
  }

  function LoopStep(s: Pipe, t: Tid, c: Call, n: nat): Pipe {
    var c' := c.(done := c.done + n);
    if c.all && n > 0 && c'.done < c.want then EnterMonitor(s, t, c', AtMonitor)
    else if Serial(s, c.side) then Goto(s, t, AtUnlock, c')
    else Quit(s, t)
  }

  /** `Prioritize` is SetPriority, which can come at any moment. */
  datatype Action = Begin(t: Tid, call: Call) | Advance(t: Tid) | TimeOut(t: Tid) | Prioritize(t: Tid, prio: nat)

  /** The task can execute its next statement. */
  predicate Ready(s: Pipe, t: Tid, p: Phase, c: Call) {
    match p
    case AtMutex => Mut(s, c.side).holder == Some(t)
    case AtMonitor => s.mon.holder == Some(t)
    case Reenter(_) => s.mon.holder == Some(t)
    case Asleep => false
    case _ => true
  }

  ghost predicate Enabled(s: Pipe, a: Action) {
    match a
    case Begin(t, c) =>
      && TaskOf(s, t).Idle? && c.done == 0
      && (c.side.Put? ==> c.all && |c.data| == c.want)
      && (c.side.Get? ==> c.data == [])
      && (AccessOf(s, c.side).Single? ==> Mut(s, c.side).holder.None?)
    case Advance(t) => TaskOf(s, t).Busy? && Ready(s, t, TaskOf(s, t).phase, TaskOf(s, t).call)
    case TimeOut(t) =>
      && TaskOf(s, t).Busy? && TaskOf(s, t).call.limit.Timed?
      && (TaskOf(s, t).phase.Asleep?
          || (TaskOf(s, t).phase.AtMutex? && Mut(s, TaskOf(s, t).call.side).holder != Some(t)))
    case Prioritize(_, _) => true
  }

  function TimeOutStep(s: Pipe, t: Tid, p: Phase, c: Call): Pipe {
    if p.Asleep? then Goto(SetCond(s, c.side, Without(Cond(s, c.side), t)), t, Awake(false), c)
    else Quit(SetMut(s, c.side, GiveUp(Mut(s, c.side), t)), t)
  }

  /** A task in a queue is queued anew, and one inside a call will queue with its new priority. */
  function PriorityStep(s: Pipe, t: Tid, prio: nat): Pipe {
    var s' := s.(mon := Reprioritize(s.mon, t, prio),
      mutGet := Reprioritize(s.mutGet, t, prio), mutPut := Reprioritize(s.mutPut, t, prio),
      condGet := Requeue(s.condGet, t, prio, s.clock), condPut := Requeue(s.condPut, t, prio, s.clock),
      clock := s.clock + 1);
    var k := TaskOf(s, t);
    if k.Busy? then Goto(s', t, k.phase, k.call.(prio := prio)) else s'
  }

  /** Every memory access and subtraction of the statement is in range. */
  predicate Safe(s: Pipe, p: Phase, c: Call) {
    && s.head < |s.buf| == s.size && s.tail < s.size && s.avail <= s.size && c.done <= c.want
    && (p.Copy? && c.side.Put? && p.i < p.n ==> c.done + p.i < |c.data|)
    && (p.Count? && c.side.Get? ==> p.n <= s.avail)
  }

  /** The next statement of a task, by what it is about to execute. */
  function Do(s: Pipe, t: Tid, p: Phase, c: Call): Pipe
    requires Safe(s, p, c)
  {
    match p
    case AtMutex => EnterMonitor(s, t, c, AtMonitor)
    case AtMonitor => Goto(s, t, Test, c)
    case Test => TestStep(s, t, c)
    case Awake(ok) => EnterMonitor(s, t, c, Reenter(ok))
    case Reenter(ok) => Goto(s, t, if ok then Copy(Take(s, c), 0) else AtLeave(0), c)
    case Copy(n, i) => CopyStep(s, t, c, n, i)
    case Count(n) => CountStep(s, t, c, n)
    case AtSignal(n) => SignalStep(s, t, c, n)
    case AtLeave(n) => Goto(s.(mon := Release(s.mon)), t, Loop(n), c)
    case Loop(n) => LoopStep(s, t, c, n)
    case AtUnlock => Quit(SetMut(s, c.side, Release(Mut(s, c.side))), t)
    case Asleep => s
  }

  /** One action; an unsafe statement, which never comes up, goes nowhere. */
  function Step(s: Pipe, a: Action): Pipe {
    match a
    case Begin(t, c) => Start(s, t, c)
    case TimeOut(t) =>
      var k := TaskOf(s, t);
      if k.Busy? then TimeOutStep(s, t, k.phase, k.call) else s
    case Prioritize(t, prio) => PriorityStep(s, t, prio)
    case Advance(t) =>
      var k := TaskOf(s, t);
      if k.Busy? && Safe(s, k.phase, k.call) then Do(s, t, k.phase, k.call) else s
  }

  // ----- the invariant -----

  function MonZone(k: Task): Zone {
    if k.Idle? then Away
    else match k.phase
      case AtMonitor => Gate
      case Reenter(_) => Gate
      case Test => Inside
      case Copy(_, _) => Inside
      case Count(_) => Inside
      case AtSignal(_) => Inside
      case AtLeave(_) => Inside
      case _ => Away
  }

  function MutZone(k: Task, side: Side): Zone {
    if k.Idle? || k.call.side != side then Away
    else if k.phase.AtMutex? then Gate
    else Inside
  }

  ghost function MonZones(s: Pipe): Tid -> Zone { (t: Tid) => MonZone(TaskOf(s, t)) }

  ghost function MutZones(s: Pipe, side: Side): Tid -> Zone { (t: Tid) => MutZone(TaskOf(s, t), side) }

  /** The locks guard their sections; an unserialized side never touches its mutex. */
  ghost predicate LocksInv(s: Pipe) {
    && Guards(s.mon, MonZones(s))
    && (Serial(s, Get) ==> Guards(s.mutGet, MutZones(s, Get)))
    && (Serial(s, Put) ==> Guards(s.mutPut, MutZones(s, Put)))
  }

  ghost predicate CondInv(s: Pipe, side: Side) {
    && WaitOrder.Valid(Cond(s, side), s.clock)
    && (forall t: Tid :: t in Names(Cond(s, side)) <==>
          TaskOf(s, t).Busy? && TaskOf(s, t).phase.Asleep? && TaskOf(s, t).call.side == side)
  }

  /** Bytes this task has moved in its current visit. */
  function Moved(p: Phase): nat {
    match p
    case Copy(_, i) => i
    case Count(n) => n
    case AtSignal(n) => n
    case AtLeave(n) => n
    case Loop(n) => n
    case _ => 0
  }

  /** Shape of one task's call. */
  ghost predicate CallInv(s: Pipe, t: Tid) {
    TaskOf(s, t).Busy? ==>
      var c, p := TaskOf(s, t).call, TaskOf(s, t).phase;
      && c.done + Moved(p) <= c.want && 0 < c.want
      && (c.side.Put? ==> |c.data| == c.want && c.all)
      && (c.side.Get? ==> |c.data| == c.done + Moved(p))
      && (!p.Loop? && !p.AtLeave? && !p.AtUnlock? ==> c.done < c.want)
      && (p.Copy? ==> p.i <= p.n && c.done + p.n <= c.want)
      && (p.Copy? || p.Count? ==> if c.side.Get? then p.n <= s.avail else s.avail + p.n <= s.size)
      && (!Serial(s, c.side) ==> !p.AtMutex? && !p.AtUnlock?)
      && (p.AtMutex? ==> c.done == 0)
  }

  /** How far the bytes in the ring are ahead of or behind `avail` while the holder is copying. */
  function Drift(s: Pipe): int {
    if s.mon.holder.None? then 0
    else
      var k := TaskOf(s, s.mon.holder.value);
      if k.Busy? && (k.phase.Copy? || k.phase.Count?) then
        if k.call.side.Get? then 0 - Moved(k.phase) as int else Moved(k.phase) as int
      else 0
  }

  /** The ring holds exactly the bytes written and not yet read, in order. */
  ghost predicate RingInv(s: Pipe) {
    && 0 < s.size == |s.buf| && s.avail <= s.size && s.head < s.size
    && var live := s.avail + Drift(s);
      && 0 <= live <= s.size
      && s.tail == At(s.size, s.head, live)
      && s.written == s.read + Contents(s.buf, s.head, live)
  }

  ghost predicate Inv(s: Pipe) {
    && LocksInv(s) && CondInv(s, Get) && CondInv(s, Put)
    && (forall t: Tid :: CallInv(s, t))
    && RingInv(s)
  }

  // ----- the locks -----

  lemma SameMutex(s: Pipe, s': Pipe, side: Side)
    requires Mut(s', side) == Mut(s, side) && Serial(s', side) == Serial(s, side)
    requires forall u: Tid :: MutZone(TaskOf(s', u), side) == MutZone(TaskOf(s, u), side)
    requires LocksInv(s)
    ensures Serial(s', side) ==> Guards(Mut(s', side), MutZones(s', side))
  {
    if Serial(s, side) { GuardsSame(Mut(s, side), MutZones(s, side), MutZones(s', side)); }
  }

  /** The monitor alone changed hands. */
  lemma SameMutexes(s: Pipe, s': Pipe)
    requires s'.mutGet == s.mutGet && s'.mutPut == s.mutPut
    requires s'.accessGet == s.accessGet && s'.accessPut == s.accessPut
    requires forall u: Tid, side: Side :: MutZone(TaskOf(s', u), side) == MutZone(TaskOf(s, u), side)
    requires LocksInv(s) && Guards(s'.mon, MonZones(s'))
    ensures LocksInv(s')
  {
    SameMutex(s, s', Get);
    SameMutex(s, s', Put);
  }

  lemma StartPlain(s: Pipe, t: Tid, c: Call)
    requires LocksInv(s) && TaskOf(s, t).Idle? && !Serial(s, c.side)
    ensures LocksInv(EnterMonitor(s, t, c, AtMonitor))
  {
    var s' := EnterMonitor(s, t, c, AtMonitor);
    GuardsArrive(s.mon, MonZones(s), MonZones(s'), t, c.prio);
    SameMutex(s, s', Other(c.side));
  }

  lemma StartSerial(s: Pipe, t: Tid, c: Call)
    requires LocksInv(s) && TaskOf(s, t).Idle? && Serial(s, c.side)
    ensures LocksInv(Goto(SetMut(s, c.side, Acquire(Mut(s, c.side), t, c.prio, false)), t, AtMutex, c))
  {
    var s' := Goto(SetMut(s, c.side, Acquire(Mut(s, c.side), t, c.prio, false)), t, AtMutex, c);
    GuardsSame(s.mon, MonZones(s), MonZones(s'));
    SameMutex(s, s', Other(c.side));
    GuardsArrive(Mut(s, c.side), MutZones(s, c.side), MutZones(s', c.side), t, c.prio);
  }

  lemma StartLocks(s: Pipe, t: Tid, c: Call)
    requires LocksInv(s) && TaskOf(s, t).Idle?
    ensures LocksInv(Start(s, t, c))
  {
    if c.want > 0 {
      if !Serial(s, c.side) {
        StartPlain(s, t, c);
      } else {
        StartSerial(s, t, c);
        if Mut(s, c.side).holder.Some? && c.limit.Never? {
          assert SetMut(s, c.side, Mut(s, c.side)) == s;
        }
      }
    }
  }

  lemma WakeLocks(s: Pipe, t: Tid, c: Call, s': Pipe)
    requires LocksInv(s) && TaskOf(s, t) == Busy(Asleep, c)
    requires s'.tasks == s.tasks[t := Busy(Awake(false), c)] && s'.mon == s.mon
    requires s'.mutGet == s.mutGet && s'.mutPut == s.mutPut
    requires s'.accessGet == s.accessGet && s'.accessPut == s.accessPut
    ensures LocksInv(s')
  {
    GuardsSame(s.mon, MonZones(s), MonZones(s'));
    SameMutexes(s, s');
  }

  lemma GiveUpLocks(s: Pipe, t: Tid, c: Call)
    requires LocksInv(s) && TaskOf(s, t) == Busy(AtMutex, c)
    requires Serial(s, c.side) && Mut(s, c.side).holder != Some(t)
    ensures LocksInv(TimeOutStep(s, t, AtMutex, c))
  {
    var s' := TimeOutStep(s, t, AtMutex, c);
    GuardsSame(s.mon, MonZones(s), MonZones(s'));
    SameMutex(s, s', Other(c.side));
    assert MutZones(s, c.side)(t) == Gate;
    GuardsGiveUp(Mut(s, c.side), MutZones(s, c.side), MutZones(s', c.side), t);
  }

  lemma MutexLocks(s: Pipe, t: Tid, c: Call)
    requires LocksInv(s) && TaskOf(s, t) == Busy(AtMutex, c) && Ready(s, t, AtMutex, c) && Serial(s, c.side)
    ensures LocksInv(EnterMonitor(s, t, c, AtMonitor))
  {
    var s' := EnterMonitor(s, t, c, AtMonitor);
    GuardsArrive(s.mon, MonZones(s), MonZones(s'), t, c.prio);
    GuardsPass(Mut(s, c.side), MutZones(s, c.side), MutZones(s', c.side), t);
    SameMutex(s, s', Other(c.side));
  }

  lemma UnlockLocks(s: Pipe, t: Tid, c: Call)
    requires LocksInv(s) && TaskOf(s, t) == Busy(AtUnlock, c) && Serial(s, c.side)
    ensures LocksInv(Quit(SetMut(s, c.side, Release(Mut(s, c.side))), t))
  {
    var s' := Quit(SetMut(s, c.side, Release(Mut(s, c.side))), t);
    GuardsSame(s.mon, MonZones(s), MonZones(s'));
    UnlockGuards(s, t, c);
    SameMutex(s, s', Other(c.side));
  }

  lemma UnlockGuards(s: Pipe, t: Tid, c: Call)
    requires LocksInv(s) && TaskOf(s, t) == Busy(AtUnlock, c) && Serial(s, c.side)
    ensures Guards(Release(Mut(s, c.side)), MutZones(Quit(SetMut(s, c.side, Release(Mut(s, c.side))), t), c.side))
  {
    var s' := Quit(SetMut(s, c.side, Release(Mut(s, c.side))), t);
    GuardsDepart(Mut(s, c.side), MutZones(s, c.side), MutZones(s', c.side), t);
  }

  /** Coming through the gate, or moving about inside. */
  lemma InsideLocks(s: Pipe, t: Tid, p: Phase, c: Call, s': Pipe, k: Task)
    requires LocksInv(s) && TaskOf(s, t) == Busy(p, c) && s.mon.holder == Some(t) && !p.AtMutex?
    requires k.Busy? && k.call.side == c.side && !k.phase.AtMutex? && MonZone(k) == Inside
    requires s'.tasks == s.tasks[t := k] && s'.mon == s.mon && s'.mutGet == s.mutGet && s'.mutPut == s.mutPut
    requires s'.accessGet == s.accessGet && s'.accessPut == s.accessPut
    ensures LocksInv(s')
  {
    GuardsPass(s.mon, MonZones(s), MonZones(s'), t);
    SameMutexes(s, s');
  }

  lemma AwakeLocks(s: Pipe, t: Tid, ok: bool, c: Call)
    requires LocksInv(s) && TaskOf(s, t) == Busy(Awake(ok), c)
    ensures LocksInv(EnterMonitor(s, t, c, Reenter(ok)))
  {
    var s' := EnterMonitor(s, t, c, Reenter(ok));
    GuardsArrive(s.mon, MonZones(s), MonZones(s'), t, c.prio);
    SameMutexes(s, s');
  }

  lemma LeaveLocks(s: Pipe, t: Tid, n: nat, c: Call)
    requires LocksInv(s) && TaskOf(s, t) == Busy(AtLeave(n), c)
    ensures LocksInv(Goto(s.(mon := Release(s.mon)), t, Loop(n), c))
  {
    var s' := Goto(s.(mon := Release(s.mon)), t, Loop(n), c);
    GuardsDepart(s.mon, MonZones(s), MonZones(s'), t);
    SameMutexes(s, s');
  }

  /** Leaving the monitor and coming straight back, as a wait of no time does. */
  lemma BounceLocks(s: Pipe, t: Tid, c: Call)
    requires LocksInv(s) && TaskOf(s, t) == Busy(Test, c)
    ensures LocksInv(EnterMonitor(s.(mon := Release(s.mon)), t, c, Reenter(false)))
  {
    var s' := EnterMonitor(s.(mon := Release(s.mon)), t, c, Reenter(false));
    var away := MonZones(Quit(s, t));
    GuardsDepart(s.mon, MonZones(s), away, t);
    GuardsArrive(Release(s.mon), away, MonZones(s'), t, c.prio);
    SameMutexes(s, s');
  }

  lemma SleepLocks(s: Pipe, t: Tid, c: Call, s': Pipe)
    requires LocksInv(s) && TaskOf(s, t) == Busy(Test, c)
    requires s'.tasks == s.tasks[t := Busy(Asleep, c)] && s'.mon == Release(s.mon)
    requires s'.mutGet == s.mutGet && s'.mutPut == s.mutPut
    requires s'.accessGet == s.accessGet && s'.accessPut == s.accessPut
    ensures LocksInv(s')
  {
    GuardsDepart(s.mon, MonZones(s), MonZones(s'), t);
    SameMutexes(s, s');
  }

  lemma TestLocks(s: Pipe, t: Tid, c: Call)
    requires LocksInv(s) && TaskOf(s, t) == Busy(Test, c) && c.done <= c.want && s.avail <= s.size
    ensures LocksInv(TestStep(s, t, c))
  {
    if !Stuck(s, c.side) {
      InsideLocks(s, t, Test, c, TestStep(s, t, c), Busy(Copy(Take(s, c), 0), c));
    } else if c.limit.Never? {
      BounceLocks(s, t, c);
    } else {
      SleepLocks(s, t, c, TestStep(s, t, c));
    }
  }

  lemma SignalLocks(s: Pipe, t: Tid, c: Call, n: nat)
    requires LocksInv(s) && CondInv(s, Other(c.side)) && TaskOf(s, t) == Busy(AtSignal(n), c)
    ensures LocksInv(SignalStep(s, t, c, n))
  {
    var s' := SignalStep(s, t, c, n);
    var q := Cond(s, Other(c.side));
    if q != [] {
      assert Last(q).who in Names(q);
    }
    GuardsSame(s.mon, MonZones(s), MonZones(s'));
    SameMutexes(s, s');
  }

  lemma AgainLocks(s: Pipe, t: Tid, c: Call, c': Call, n: nat)
    requires LocksInv(s) && TaskOf(s, t) == Busy(Loop(n), c) && c'.side == c.side
    ensures LocksInv(EnterMonitor(s, t, c', AtMonitor))
  {
    var s' := EnterMonitor(s, t, c', AtMonitor);
    GuardsArrive(s.mon, MonZones(s), MonZones(s'), t, c'.prio);
    SameMutexes(s, s');
  }

  lemma ExitLocks(s: Pipe, t: Tid, c: Call, n: nat, k: Task)
    requires LocksInv(s) && TaskOf(s, t) == Busy(Loop(n), c)
    requires if Serial(s, c.side) then k.Busy? && k.phase.AtUnlock? && k.call.side == c.side else k.Idle?
    ensures LocksInv(s.(tasks := s.tasks[t := k]))
  {
    var s' := s.(tasks := s.tasks[t := k]);
    GuardsSame(s.mon, MonZones(s), MonZones(s'));
    SameMutex(s, s', Other(c.side));
    if Serial(s, c.side) { SameMutex(s, s', c.side); }
  }

  // ----- conditions, calls and the ring -----

  predicate Sleeping(k: Task, side: Side) {
    k.Busy? && k.phase.Asleep? && k.call.side == side
  }

  /** All but the locks and the task table. */
  predicate SameData(s: Pipe, s': Pipe) {
    && s'.size == s.size && s'.buf == s.buf && s'.head == s.head && s'.tail == s.tail && s'.avail == s.avail
    && s'.condGet == s.condGet && s'.condPut == s.condPut && s'.clock == s.clock
    && s'.accessGet == s.accessGet && s'.accessPut == s.accessPut
    && s'.written == s.written && s'.read == s.read
  }

  /** The part of the invariant that is not about locks. */
  ghost predicate DataInv(s: Pipe) {
    && CondInv(s, Get) && CondInv(s, Put) && RingInv(s)
    && forall u: Tid :: CallInv(s, u)
  }

  lemma CondSame(s: Pipe, s': Pipe, side: Side)
    requires CondInv(s, side) && Cond(s', side) == Cond(s, side) && s'.clock >= s.clock
    requires forall u: Tid :: Sleeping(TaskOf(s', u), side) <==> Sleeping(TaskOf(s, u), side)
    ensures CondInv(s', side)
  {
    forall u: Tid ensures u in Names(Cond(s', side)) <==> Sleeping(TaskOf(s', u), side) {
      assert u in Names(Cond(s, side)) <==> Sleeping(TaskOf(s, u), side);
    }
  }

  /** A statement that moves neither bytes nor sleepers. */
  lemma PlainStep(s: Pipe, s': Pipe, t: Tid, k: Task)
    requires DataInv(s) && SameData(s, s') && s'.tasks == s.tasks[t := k] && Drift(s') == Drift(s)
    requires !Sleeping(TaskOf(s, t), Get) && !Sleeping(TaskOf(s, t), Put) && !Sleeping(k, Get) && !Sleeping(k, Put)
    requires CallInv(s', t)
    ensures DataInv(s')
  {
    CondSame(s, s', Get);
    CondSame(s, s', Put);
    forall u: Tid ensures CallInv(s', u) {
      assert CallInv(s, u);
    }
  }

  /** The ring and the other calls do not notice sleepers coming and going. */
  lemma QuietStep(s: Pipe, s': Pipe, t: Tid, w: Tid)
    requires RingInv(s) && (forall u: Tid :: CallInv(s, u)) && Drift(s') == Drift(s)
    requires s'.size == s.size && s'.buf == s.buf && s'.head == s.head && s'.tail == s.tail && s'.avail == s.avail
    requires s'.accessGet == s.accessGet && s'.accessPut == s.accessPut && s'.written == s.written && s'.read == s.read
    requires forall u: Tid :: u != t && u != w ==> TaskOf(s', u) == TaskOf(s, u)
    requires CallInv(s', t) && CallInv(s', w)
    ensures RingInv(s') && forall u: Tid :: CallInv(s', u)
  {
    forall u: Tid ensures CallInv(s', u) {
      assert CallInv(s, u);
    }
  }

  lemma CondSleep(s: Pipe, t: Tid, c: Call)
    requires CondInv(s, c.side) && CondInv(s, Other(c.side)) && TaskOf(s, t) == Busy(Test, c)
    requires Stuck(s, c.side) && !c.limit.Never? && c.done <= c.want && s.avail <= s.size
    ensures CondInv(TestStep(s, t, c), Get) && CondInv(TestStep(s, t, c), Put)
  {
    var s' := TestStep(s, t, c);
    CondGrows(s, s', t, c);
    CondSame(s, s', Other(c.side));
  }

  lemma CondGrows(s: Pipe, s': Pipe, t: Tid, c: Call)
    requires CondInv(s, c.side) && !Sleeping(TaskOf(s, t), c.side)
    requires Cond(s', c.side) == Insert(Cond(s, c.side), Entry(t, c.prio, s.clock)) && s'.clock == s.clock + 1
    requires s'.tasks == s.tasks[t := Busy(Asleep, c)]
    ensures CondInv(s', c.side)
  {
    assert t !in Names(Cond(s, c.side));
    InsertKeepsValid(Cond(s, c.side), Entry(t, c.prio, s.clock), s.clock);
    forall u: Tid ensures u in Names(Cond(s', c.side)) <==> Sleeping(TaskOf(s', u), c.side) {
      assert u in Names(Cond(s, c.side)) <==> Sleeping(TaskOf(s, u), c.side);
    }
  }

  lemma SleepData(s: Pipe, t: Tid, c: Call)
    requires LocksInv(s) && DataInv(s) && TaskOf(s, t) == Busy(Test, c) && CallInv(s, t)
    requires Stuck(s, c.side) && !c.limit.Never?
    ensures DataInv(TestStep(s, t, c))
  {
    CondSleep(s, t, c);
    DriftFree(s, t);
    SleepQuiet(s, t, c);
  }

  lemma SleepQuiet(s: Pipe, t: Tid, c: Call)
    requires LocksInv(s) && RingInv(s) && (forall u: Tid :: CallInv(s, u)) && CallInv(s, t) && Drift(s) == 0
    requires TaskOf(s, t) == Busy(Test, c) && Stuck(s, c.side) && !c.limit.Never?
    ensures RingInv(TestStep(s, t, c)) && forall u: Tid :: CallInv(TestStep(s, t, c), u)
  {
    var s' := TestStep(s, t, c);
    ReleaseDrift(s, s', t);
    QuietStep(s, s', t, t);
  }

  /** Nobody is copying while `t` is inside and not copying. */
  lemma DriftFree(s: Pipe, t: Tid)
    requires LocksInv(s) && MonZone(TaskOf(s, t)) == Inside && !TaskOf(s, t).phase.Copy? && !TaskOf(s, t).phase.Count?
    ensures Drift(s) == 0
  {
    assert MonZones(s)(t) == Inside;
  }

  /** After a release the monitor is free or belongs to a task still at its gate. */
  lemma ReleaseDrift(s: Pipe, s': Pipe, t: Tid)
    requires LocksInv(s) && s'.mon == Release(s.mon) && MonZone(TaskOf(s, t)) == Inside
    requires forall u: Tid :: u != t ==> TaskOf(s', u) == TaskOf(s, u)
    ensures Drift(s') == 0
  {
    assert MonZones(s)(t) == Inside;
    ReleaseValid(s.mon);
    if s.mon.queue != [] {
      var w := Last(s.mon.queue).who;
      assert w in Names(s.mon.queue) && MonZones(s)(w) == Gate;
    }
  }

  /** A task that arrives at the monitor does not disturb a copy in progress. */
  lemma ArriveDrift(s: Pipe, s': Pipe, t: Tid, prio: nat)
    requires LocksInv(s) && s'.mon == Acquire(s.mon, t, prio, false) && MonZone(TaskOf(s, t)) == Away
    requires MonZone(TaskOf(s', t)) == Gate
    requires forall u: Tid :: u != t ==> TaskOf(s', u) == TaskOf(s, u)
    ensures Drift(s') == Drift(s)
  {
    assert MonZones(s)(t) == Away;
  }

  lemma SameDrift(s: Pipe, s': Pipe, t: Tid)
    requires LocksInv(s) && s'.mon == s.mon && MonZone(TaskOf(s, t)) == Away
    requires forall u: Tid :: u != t ==> TaskOf(s', u) == TaskOf(s, u)
    ensures Drift(s') == Drift(s)
  {
    assert MonZones(s)(t) == Away;
  }

  lemma ReadRing(s: Pipe, t: Tid, c: Call, n: nat, i: nat)
    requires RingInv(s) && TaskOf(s, t) == Busy(Copy(n, i), c) && i < n && s.mon.holder == Some(t)
    requires CallInv(s, t) && c.side.Get?
    ensures RingInv(CopyStep(s, t, c, n, i))
  {
    var live := s.avail + Drift(s);
    PopDrops(s.buf, s.head, live);
    assert s.written == (s.read + [s.buf[s.head]]) + Contents(s.buf, Next(s.size, s.head), live - 1);
  }

  lemma WriteRing(s: Pipe, t: Tid, c: Call, n: nat, i: nat)
    requires RingInv(s) && TaskOf(s, t) == Busy(Copy(n, i), c) && i < n && s.mon.holder == Some(t)
    requires CallInv(s, t) && c.side.Put?
    ensures RingInv(CopyStep(s, t, c, n, i))
  {
    var live, x := s.avail + Drift(s), c.data[c.done + i];
    PushAppends(s.buf, s.head, live, x);
    assert CopyStep(s, t, c, n, i).written == s.read + (Contents(s.buf, s.head, live) + [x]);
  }

  lemma CopyCall(s: Pipe, t: Tid, c: Call, n: nat, i: nat, u: Tid)
    requires CallInv(s, t) && CallInv(s, u) && TaskOf(s, t) == Busy(Copy(n, i), c) && i < n && RingInv(s)
    ensures CallInv(CopyStep(s, t, c, n, i), u)
  {
  }

  lemma CopyCalls(s: Pipe, t: Tid, c: Call, n: nat, i: nat)
    requires (forall u: Tid :: CallInv(s, u)) && TaskOf(s, t) == Busy(Copy(n, i), c) && i < n && RingInv(s)
    requires CallInv(s, t)
    ensures forall u: Tid :: CallInv(CopyStep(s, t, c, n, i), u)
  {
    var s' := CopyStep(s, t, c, n, i);
    forall u: Tid ensures CallInv(s', u) {
      assert CallInv(s, u);
      CopyCall(s, t, c, n, i, u);
    }
  }

  lemma CopyData(s: Pipe, t: Tid, c: Call, n: nat, i: nat)
    requires LocksInv(s) && DataInv(s) && TaskOf(s, t) == Busy(Copy(n, i), c) && i < n
    requires CallInv(s, t)
    ensures DataInv(CopyStep(s, t, c, n, i))
  {
    var s' := CopyStep(s, t, c, n, i);
    assert MonZones(s)(t) == Inside;
    if c.side.Get? { ReadRing(s, t, c, n, i); } else { WriteRing(s, t, c, n, i); }
    CopyCalls(s, t, c, n, i);
    CondSame(s, s', Get);
    CondSame(s, s', Put);
  }

  lemma CopiedData(s: Pipe, t: Tid, c: Call, n: nat, i: nat)
    requires LocksInv(s) && DataInv(s) && TaskOf(s, t) == Busy(Copy(n, i), c) && i >= n
    requires CallInv(s, t)
    ensures DataInv(CopyStep(s, t, c, n, i))
  {
    assert MonZones(s)(t) == Inside;
    PlainStep(s, CopyStep(s, t, c, n, i), t, Busy(Count(n), c));
  }

  lemma CountCall(s: Pipe, t: Tid, c: Call, n: nat, u: Tid)
    requires CallInv(s, t) && CallInv(s, u) && TaskOf(s, t) == Busy(Count(n), c)
    requires u != t ==> MonZone(TaskOf(s, u)) != Inside
    ensures CallInv(CountStep(s, t, c, n), u)
  {
  }

  lemma CountRing(s: Pipe, t: Tid, c: Call, n: nat)
    requires RingInv(s) && TaskOf(s, t) == Busy(Count(n), c) && CallInv(s, t) && s.mon.holder == Some(t)
    ensures RingInv(CountStep(s, t, c, n))
  {
  }

  lemma CountData(s: Pipe, t: Tid, c: Call, n: nat)
    requires LocksInv(s) && DataInv(s) && TaskOf(s, t) == Busy(Count(n), c) && CallInv(s, t)
    ensures DataInv(CountStep(s, t, c, n))
  {
    var s' := CountStep(s, t, c, n);
    assert MonZones(s)(t) == Inside;
    CountRing(s, t, c, n);
    CondSame(s, s', Get);
    CondSame(s, s', Put);
    forall u: Tid ensures CallInv(s', u) {
      assert CallInv(s, u);
      if u != t { assert MonZones(s)(u) != Inside; }
      CountCall(s, t, c, n, u);
    }
  }

  lemma CondSignal(s: Pipe, t: Tid, c: Call, n: nat)
    requires CondInv(s, c.side) && CondInv(s, Other(c.side)) && TaskOf(s, t) == Busy(AtSignal(n), c)
    ensures CondInv(SignalStep(s, t, c, n), Get) && CondInv(SignalStep(s, t, c, n), Put)
  {
    var s' := SignalStep(s, t, c, n);
    var o := Other(c.side);
    var q := Cond(s, o);
    if q != [] {
      FrontKeepsValid(q, s.clock);
      assert Last(q).who in Names(q) && Sleeping(TaskOf(s, Last(q).who), o);
    }
    CondSame(s, s', c.side);
    forall u: Tid ensures u in Names(Cond(s', o)) <==> Sleeping(TaskOf(s', u), o) {
      assert u in Names(q) <==> Sleeping(TaskOf(s, u), o);
    }
  }

  /** What a signal leaves of the ring and of every call. */
  lemma SignalQuiet(s: Pipe, t: Tid, c: Call, n: nat, w: Tid)
    requires RingInv(s) && (forall u: Tid :: CallInv(s, u)) && CallInv(s, t) && CallInv(s, w)
    requires TaskOf(s, t) == Busy(AtSignal(n), c) && s.mon.holder == Some(t)
    requires Cond(s, Other(c.side)) == [] ==> w == t
    requires Cond(s, Other(c.side)) != [] ==>
        w == Last(Cond(s, Other(c.side))).who && Sleeping(TaskOf(s, w), Other(c.side))
    ensures RingInv(SignalStep(s, t, c, n)) && forall u: Tid :: CallInv(SignalStep(s, t, c, n), u)
  {
    QuietStep(s, SignalStep(s, t, c, n), t, w);
  }

  lemma SignalData(s: Pipe, t: Tid, c: Call, n: nat)
    requires LocksInv(s) && DataInv(s) && TaskOf(s, t) == Busy(AtSignal(n), c) && CallInv(s, t)
    ensures DataInv(SignalStep(s, t, c, n))
  {
    var q := Cond(s, Other(c.side));
    assert MonZones(s)(t) == Inside;
    CondSignal(s, t, c, n);
    var w := if q == [] then t else Last(q).who;
    assert q != [] ==> w in Names(q);
    assert CallInv(s, w);
    SignalQuiet(s, t, c, n, w);
  }

  lemma CondWake(s: Pipe, t: Tid, c: Call)
    requires CondInv(s, c.side) && CondInv(s, Other(c.side)) && TaskOf(s, t) == Busy(Asleep, c)
    ensures CondInv(TimeOutStep(s, t, Asleep, c), Get) && CondInv(TimeOutStep(s, t, Asleep, c), Put)
  {
    var s' := TimeOutStep(s, t, Asleep, c);
    WithoutKeepsValid(Cond(s, c.side), t, s.clock);
    CondSame(s, s', Other(c.side));
    forall u: Tid ensures u in Names(Cond(s', c.side)) <==> Sleeping(TaskOf(s', u), c.side) {
      assert u in Names(Cond(s, c.side)) <==> Sleeping(TaskOf(s, u), c.side);
    }
  }

  lemma WakeData(s: Pipe, t: Tid, c: Call)
    requires LocksInv(s) && DataInv(s) && TaskOf(s, t) == Busy(Asleep, c) && CallInv(s, t)
    ensures DataInv(TimeOutStep(s, t, Asleep, c))
  {
    var s' := TimeOutStep(s, t, Asleep, c);
    CondWake(s, t, c);
    SameDrift(s, s', t);
    QuietStep(s, s', t, t);
  }

  // ----- every statement keeps the invariant -----

  lemma StartKeepsInv(s: Pipe, t: Tid, c: Call)
    requires Inv(s) && Enabled(s, Begin(t, c))
    ensures Inv(Start(s, t, c))
  {
    StartLocks(s, t, c);
    StartData(s, t, c);
  }

  lemma StartData(s: Pipe, t: Tid, c: Call)
    requires Inv(s) && Enabled(s, Begin(t, c))
    ensures DataInv(Start(s, t, c))
  {
    var s' := Start(s, t, c);
    assert CallInv(s, t);
    if c.want > 0 {
      if !Serial(s, c.side) {
        ArriveDrift(s, s', t, c.prio);
        PlainStep(s, s', t, Busy(AtMonitor, c));
      } else if Mut(s, c.side).holder.Some? && c.limit.Never? {
        assert SetMut(s, c.side, Mut(s, c.side)) == s;
      } else {
        SameDrift(s, s', t);
        PlainStep(s, s', t, Busy(AtMutex, c));
      }
    }
  }

  lemma TimeOutKeepsInv(s: Pipe, t: Tid)
    requires Inv(s) && Enabled(s, TimeOut(t))
    ensures Inv(Step(s, TimeOut(t)))
  {
    var p, c := TaskOf(s, t).phase, TaskOf(s, t).call;
    var s' := TimeOutStep(s, t, p, c);
    assert CallInv(s, t);
    if p.Asleep? {
      WakeLocks(s, t, c, s');
      WakeData(s, t, c);
    } else {
      GiveUpLocks(s, t, c);
      SameDrift(s, s', t);
      PlainStep(s, s', t, Idle);
    }
  }

  /** The same task, but for its priority. */
  predicate Alike(k: Task, k': Task) {
    if k.Idle? then k'.Idle? else k'.Busy? && k'.phase == k.phase && k'.call == k.call.(prio := k'.call.prio)
  }

  /** What a change of priority leaves as it was. */
  predicate SameButOrder(s: Pipe, s': Pipe) {
    && s'.size == s.size && s'.buf == s.buf && s'.head == s.head && s'.tail == s.tail && s'.avail == s.avail
    && s'.accessGet == s.accessGet && s'.accessPut == s.accessPut
    && s'.written == s.written && s'.read == s.read && s'.mon.holder == s.mon.holder
  }

  lemma PriorityFrame(s: Pipe, t: Tid, prio: nat, u: Tid)
    ensures SameButOrder(s, PriorityStep(s, t, prio))
    ensures Alike(TaskOf(s, u), TaskOf(PriorityStep(s, t, prio), u))
  {
  }

  lemma AlikeZones(k: Task, k': Task, side: Side)
    requires Alike(k, k')
    ensures MonZone(k') == MonZone(k) && MutZone(k', side) == MutZone(k, side)
    ensures Sleeping(k', side) == Sleeping(k, side)
  {
  }

  lemma PriorityLock(s: Pipe, t: Tid, prio: nat, side: Side)
    requires Serial(s, side) ==> Guards(Mut(s, side), MutZones(s, side))
    ensures Serial(s, side) ==> Guards(Mut(PriorityStep(s, t, prio), side), MutZones(PriorityStep(s, t, prio), side))
  {
    if Serial(s, side) {
      var s' := PriorityStep(s, t, prio);
      forall u: Tid ensures MutZones(s', side)(u) == MutZones(s, side)(u) {
        PriorityFrame(s, t, prio, u);
        AlikeZones(TaskOf(s, u), TaskOf(s', u), side);
      }
      GuardsRequeue(Mut(s, side), MutZones(s, side), MutZones(s', side), t, prio);
      assert Mut(s', side) == Reprioritize(Mut(s, side), t, prio);
    }
  }

  lemma PriorityMonitor(s: Pipe, t: Tid, prio: nat)
    requires Guards(s.mon, MonZones(s))
    ensures Guards(PriorityStep(s, t, prio).mon, MonZones(PriorityStep(s, t, prio)))
  {
    var s' := PriorityStep(s, t, prio);
    forall u: Tid ensures MonZones(s')(u) == MonZones(s)(u) {
      PriorityFrame(s, t, prio, u);
      AlikeZones(TaskOf(s, u), TaskOf(s', u), Get);
    }
    GuardsRequeue(s.mon, MonZones(s), MonZones(s'), t, prio);
  }

  lemma PriorityCond(s: Pipe, t: Tid, prio: nat, side: Side)
    requires CondInv(s, side)
    ensures CondInv(PriorityStep(s, t, prio), side)
  {
    var s' := PriorityStep(s, t, prio);
    RequeueKeepsValid(Cond(s, side), t, prio, s.clock);
    forall u: Tid ensures u in Names(Cond(s', side)) <==> Sleeping(TaskOf(s', u), side) {
      assert u in Names(Cond(s, side)) <==> Sleeping(TaskOf(s, u), side);
      PriorityFrame(s, t, prio, u);
      AlikeZones(TaskOf(s, u), TaskOf(s', u), side);
    }
  }

  lemma AlikeCall(s: Pipe, s': Pipe, u: Tid)
    requires SameButOrder(s, s') && Alike(TaskOf(s, u), TaskOf(s', u)) && CallInv(s, u)
    ensures CallInv(s', u)
  {
  }

  lemma PriorityRing(s: Pipe, t: Tid, prio: nat)
    requires RingInv(s)
    ensures RingInv(PriorityStep(s, t, prio))
  {
    PriorityFrame(s, t, prio, t);
    if s.mon.holder.Some? { PriorityFrame(s, t, prio, s.mon.holder.value); }
  }

  lemma PriorityKeepsInv(s: Pipe, t: Tid, prio: nat)
    requires Inv(s)
    ensures Inv(PriorityStep(s, t, prio))
  {
    PriorityMonitor(s, t, prio);
    PriorityLock(s, t, prio, Get);
    PriorityLock(s, t, prio, Put);
    PriorityCond(s, t, prio, Get);
    PriorityCond(s, t, prio, Put);
    PriorityRing(s, t, prio);
    forall u: Tid ensures CallInv(PriorityStep(s, t, prio), u) {
      PriorityFrame(s, t, prio, u);
      AlikeCall(s, PriorityStep(s, t, prio), u);
    }
    PriorityFrame(s, t, prio, t);
  }

  /** Coming through the monitor's gate. */
  lemma GateKeepsInv(s: Pipe, t: Tid, p: Phase, c: Call)
    requires Inv(s) && Enabled(s, Advance(t)) && TaskOf(s, t) == Busy(p, c) && Safe(s, p, c) && CallInv(s, t)
    requires p.AtMonitor? || p.Reenter?
    ensures Inv(Do(s, t, p, c))
  {
    var s' := Do(s, t, p, c);
    var k := if p.AtMonitor? then Busy(Test, c) else Busy(if p.ok then Copy(Take(s, c), 0) else AtLeave(0), c);
    InsideLocks(s, t, p, c, s', k);
    PlainStep(s, s', t, k);
  }

  /** Arriving at the monitor. */
  lemma ArriveKeepsInv(s: Pipe, t: Tid, p: Phase, c: Call)
    requires Inv(s) && Enabled(s, Advance(t)) && TaskOf(s, t) == Busy(p, c) && Safe(s, p, c) && CallInv(s, t)
    requires p.AtMutex? || p.Awake?
    ensures Inv(Do(s, t, p, c))
  {
    var s' := Do(s, t, p, c);
    if p.AtMutex? { MutexLocks(s, t, c); } else { AwakeLocks(s, t, p.ok, c); }
    ArriveDrift(s, s', t, c.prio);
    PlainStep(s, s', t, Busy(if p.AtMutex? then AtMonitor else Reenter(p.ok), c));
  }

  lemma LeaveKeepsInv(s: Pipe, t: Tid, n: nat, c: Call)
    requires Inv(s) && TaskOf(s, t) == Busy(AtLeave(n), c) && CallInv(s, t)
    ensures Inv(Goto(s.(mon := Release(s.mon)), t, Loop(n), c))
  {
    var s' := Goto(s.(mon := Release(s.mon)), t, Loop(n), c);
    LeaveLocks(s, t, n, c);
    DriftFree(s, t);
    ReleaseDrift(s, s', t);
    PlainStep(s, s', t, Busy(Loop(n), c));
  }

  lemma UnlockKeepsInv(s: Pipe, t: Tid, c: Call)
    requires Inv(s) && TaskOf(s, t) == Busy(AtUnlock, c) && CallInv(s, t)
    ensures Inv(Quit(SetMut(s, c.side, Release(Mut(s, c.side))), t))
  {
    var s' := Quit(SetMut(s, c.side, Release(Mut(s, c.side))), t);
    UnlockLocks(s, t, c);
    SameDrift(s, s', t);
    PlainStep(s, s', t, Idle);
  }

  lemma TakeKeepsData(s: Pipe, t: Tid, c: Call)
    requires Inv(s) && TaskOf(s, t) == Busy(Test, c) && CallInv(s, t) && !Stuck(s, c.side)
    ensures DataInv(TestStep(s, t, c))
  {
    DriftFree(s, t);
    assert MonZones(s)(t) == Inside;
    PlainStep(s, TestStep(s, t, c), t, Busy(Copy(Take(s, c), 0), c));
  }

  lemma BounceKeepsData(s: Pipe, t: Tid, c: Call)
    requires Inv(s) && TaskOf(s, t) == Busy(Test, c) && CallInv(s, t) && Stuck(s, c.side) && c.limit.Never?
    ensures DataInv(TestStep(s, t, c))
  {
    DriftFree(s, t);
    BounceDrift(s, TestStep(s, t, c), t, c);
    PlainStep(s, TestStep(s, t, c), t, Busy(Reenter(false), c));
  }

  lemma TestKeepsInv(s: Pipe, t: Tid, c: Call)
    requires Inv(s) && TaskOf(s, t) == Busy(Test, c) && CallInv(s, t)
    ensures Inv(TestStep(s, t, c))
  {
    TestLocks(s, t, c);
    if !Stuck(s, c.side) {
      TakeKeepsData(s, t, c);
    } else if c.limit.Never? {
      BounceKeepsData(s, t, c);
    } else {
      SleepData(s, t, c);
    }
  }

  lemma BounceDrift(s: Pipe, s': Pipe, t: Tid, c: Call)
    requires LocksInv(s) && TaskOf(s, t) == Busy(Test, c)
    requires s' == EnterMonitor(s.(mon := Release(s.mon)), t, c, Reenter(false))
    ensures Drift(s') == 0
  {
    assert MonZones(s)(t) == Inside;
    ReleaseValid(s.mon);
    if s.mon.queue != [] {
      var w := Last(s.mon.queue).who;
      assert w in Names(s.mon.queue) && MonZones(s)(w) == Gate;
    }
  }

  lemma CopyLocks(s: Pipe, t: Tid, c: Call, n: nat, i: nat)
    requires Inv(s) && TaskOf(s, t) == Busy(Copy(n, i), c) && CallInv(s, t)
    ensures LocksInv(CopyStep(s, t, c, n, i))
  {
    var s' := CopyStep(s, t, c, n, i);
    assert MonZones(s)(t) == Inside;
    InsideLocks(s, t, Copy(n, i), c, s', s'.tasks[t]);
  }

  lemma CopyKeepsInv(s: Pipe, t: Tid, c: Call, n: nat, i: nat)
    requires Inv(s) && TaskOf(s, t) == Busy(Copy(n, i), c) && CallInv(s, t)
    ensures Inv(CopyStep(s, t, c, n, i))
  {
    CopyLocks(s, t, c, n, i);
    if i < n {
      CopyData(s, t, c, n, i);
    } else {
      CopiedData(s, t, c, n, i);
    }
  }

  lemma AgainKeepsInv(s: Pipe, t: Tid, c: Call, n: nat)
    requires Inv(s) && TaskOf(s, t) == Busy(Loop(n), c) && CallInv(s, t)
    requires c.all && n > 0 && c.done + n < c.want
    ensures Inv(EnterMonitor(s, t, c.(done := c.done + n), AtMonitor))
  {
    var c' := c.(done := c.done + n);
    var s' := EnterMonitor(s, t, c', AtMonitor);
    AgainLocks(s, t, c, c', n);
    ArriveDrift(s, s', t, c.prio);
    PlainStep(s, s', t, Busy(AtMonitor, c'));
  }

  lemma ExitKeepsInv(s: Pipe, t: Tid, c: Call, n: nat, k: Task)
    requires Inv(s) && TaskOf(s, t) == Busy(Loop(n), c) && CallInv(s, t)
    requires k == if Serial(s, c.side) then Busy(AtUnlock, c.(done := c.done + n)) else Idle
    ensures Inv(s.(tasks := s.tasks[t := k]))
  {
    var s' := s.(tasks := s.tasks[t := k]);
    ExitLocks(s, t, c, n, k);
    SameDrift(s, s', t);
    PlainStep(s, s', t, k);
  }

  lemma LoopKeepsInv(s: Pipe, t: Tid, c: Call, n: nat)
    requires Inv(s) && TaskOf(s, t) == Busy(Loop(n), c) && CallInv(s, t)
    ensures Inv(LoopStep(s, t, c, n))
  {
    var c' := c.(done := c.done + n);
    if c.all && n > 0 && c'.done < c.want {
      AgainKeepsInv(s, t, c, n);
      assert LoopStep(s, t, c, n) == EnterMonitor(s, t, c', AtMonitor);
    } else {
      var k := if Serial(s, c.side) then Busy(AtUnlock, c') else Idle;
      ExitKeepsInv(s, t, c, n, k);
      assert LoopStep(s, t, c, n) == s.(tasks := s.tasks[t := k]);
    }
  }

  /** Every statement a task can reach is safe to execute. */
  lemma AdvanceIsSafe(s: Pipe, t: Tid)
    requires RingInv(s) && CallInv(s, t) && TaskOf(s, t).Busy?
    ensures Safe(s, TaskOf(s, t).phase, TaskOf(s, t).call)
  {
  }

  lemma CountKeepsInv(s: Pipe, t: Tid, n: nat, c: Call)
    requires Inv(s) && TaskOf(s, t) == Busy(Count(n), c) && CallInv(s, t)
    ensures Inv(CountStep(s, t, c, n))
  {
    assert MonZones(s)(t) == Inside;
    InsideLocks(s, t, Count(n), c, CountStep(s, t, c, n), Busy(AtSignal(n), c));
    CountData(s, t, c, n);
  }

  lemma SignalKeepsInv(s: Pipe, t: Tid, n: nat, c: Call)
    requires Inv(s) && TaskOf(s, t) == Busy(AtSignal(n), c) && CallInv(s, t)
    ensures Inv(SignalStep(s, t, c, n))
  {
    SignalLocks(s, t, c, n);
    SignalData(s, t, c, n);
  }

  lemma AdvanceKeepsInv(s: Pipe, t: Tid)
    requires Inv(s) && Enabled(s, Advance(t))
    ensures Inv(Step(s, Advance(t)))
  {
    var p, c := TaskOf(s, t).phase, TaskOf(s, t).call;
    assert CallInv(s, t);
    AdvanceIsSafe(s, t);
    match p
    case Test => TestKeepsInv(s, t, c);
    case Copy(n, i) => CopyKeepsInv(s, t, c, n, i);
    case Count(n) => CountKeepsInv(s, t, n, c);
    case AtSignal(n) => SignalKeepsInv(s, t, n, c);
    case Loop(n) => LoopKeepsInv(s, t, c, n);
    case AtMonitor => GateKeepsInv(s, t, p, c);
    case Reenter(_) => GateKeepsInv(s, t, p, c);
    case AtLeave(n) => LeaveKeepsInv(s, t, n, c);
    case AtUnlock => UnlockKeepsInv(s, t, c);
    case _ => ArriveKeepsInv(s, t, p, c);
  }

  lemma StepKeepsInv(s: Pipe, a: Action)
    requires Inv(s) && Enabled(s, a)
    ensures Inv(Step(s, a))
  {
    match a
    case Begin(t, c) => StartKeepsInv(s, t, c);
    case TimeOut(t) => TimeOutKeepsInv(s, t);
    case Prioritize(t, prio) => PriorityKeepsInv(s, t, prio);
    case Advance(t) => AdvanceKeepsInv(s, t);
  }

  // ----- both sides serialized: nobody sleeps in vain -----

  /** A task of this side is inside the monitor, past its update of `avail`, about to signal. */
  predicate Signalling(s: Pipe, side: Side) {
    s.mon.holder.Some? &&
    var k := TaskOf(s, s.mon.holder.value);
    k.Busy? && k.phase.AtSignal? && k.call.side == side
  }

  ghost predicate WakeInv(s: Pipe, t: Tid) {
    TaskOf(s, t).Busy? ==>
      var c, p := TaskOf(s, t).call, TaskOf(s, t).phase;
      && (p.Asleep? ==> Stuck(s, c.side) || Signalling(s, Other(c.side)))
      && (p == Awake(true) || p == Reenter(true) ==> !Stuck(s, c.side))
      && (p == Awake(false) || p == Reenter(false) || p == AtLeave(0) || p == Loop(0) ==> !c.limit.Forever?)
      && (p.Copy? || p.Count? || p.AtSignal? ==> p.n > 0)
      && (p.AtSignal? ==> !Stuck(s, Other(c.side)))
      && (p.AtUnlock? && c.limit.Forever? ==> c.done > 0 && (c.all ==> c.done == c.want))
  }

  /** Two tasks past the mutex of one side are the same task. */
  lemma OnePerSide(s: Pipe, t: Tid, u: Tid)
    requires LocksInv(s) && BothSerial(s)
    requires TaskOf(s, t).Busy? && TaskOf(s, u).Busy? && TaskOf(s, t).call.side == TaskOf(s, u).call.side
    requires !TaskOf(s, t).phase.AtMutex? && !TaskOf(s, u).phase.AtMutex?
    ensures t == u
  {
    var side := TaskOf(s, t).call.side;
    OneInside(Mut(s, side), MutZones(s, side), t, u);
  }

  /** A statement of `t` that leaves `avail` and the other tasks alone, and is not a signal. */
  lemma WakeFrame(s: Pipe, s': Pipe, t: Tid, u: Tid)
    requires LocksInv(s) && WakeInv(s, u) && u != t && s'.avail == s.avail && s'.size == s.size
    requires TaskOf(s', u) == TaskOf(s, u)
    requires !(TaskOf(s, t).Busy? && TaskOf(s, t).phase.AtSignal?)
    requires s.mon.holder.Some? && s.mon.holder != Some(t) ==>
      s'.mon.holder == s.mon.holder && TaskOf(s', s.mon.holder.value) == TaskOf(s, s.mon.holder.value)
    ensures WakeInv(s', u)
  {
  }

  /** Only its holder takes the monitor away from somebody. */
  lemma HolderStays(s: Pipe, t: Tid)
    requires Inv(s) && Enabled(s, Advance(t)) && !TaskOf(s, t).phase.AtSignal?
    requires s.mon.holder.Some? && s.mon.holder != Some(t)
    ensures var s' := Step(s, Advance(t));
      s'.mon.holder == s.mon.holder && TaskOf(s', s.mon.holder.value) == TaskOf(s, s.mon.holder.value)
  {
    assert CallInv(s, t);
    assert MonZones(s)(t) != Inside;
  }

  lemma AdvanceOthersWake(s: Pipe, t: Tid, u: Tid)
    requires Inv(s) && BothSerial(s) && Enabled(s, Advance(t)) && u != t && WakeInv(s, u)
    requires !TaskOf(s, t).phase.AtSignal? && !TaskOf(s, t).phase.Count?
    ensures WakeInv(Step(s, Advance(t)), u)
  {
    assert CallInv(s, t);
    AdvanceIsSafe(s, t);
    OthersStay(s, t, u);
    if s.mon.holder.Some? && s.mon.holder != Some(t) { HolderStays(s, t); }
    WakeFrame(s, Step(s, Advance(t)), t, u);
  }

  /** A statement that neither counts nor signals leaves `avail` and the other tasks alone. */
  lemma OthersStay(s: Pipe, t: Tid, u: Tid)
    requires TaskOf(s, t).Busy? && Safe(s, TaskOf(s, t).phase, TaskOf(s, t).call) && u != t
    requires !TaskOf(s, t).phase.AtSignal? && !TaskOf(s, t).phase.Count?
    ensures Untouched(s, Step(s, Advance(t)), u)
  {
    var p, c := TaskOf(s, t).phase, TaskOf(s, t).call;
    match p
    case Test => TestStays(s, t, c, u);
    case Copy(n, i) => CopyStays(s, t, c, n, i, u);
    case Loop(n) => LoopStays(s, t, c, n, u);
    case _ =>
  }

  predicate Untouched(s: Pipe, s': Pipe, u: Tid) {
    s'.avail == s.avail && s'.size == s.size && TaskOf(s', u) == TaskOf(s, u)
  }

  lemma TestStays(s: Pipe, t: Tid, c: Call, u: Tid)
    requires u != t && c.done <= c.want && s.avail <= s.size
    ensures Untouched(s, TestStep(s, t, c), u)
  {
  }

  lemma CopyStays(s: Pipe, t: Tid, c: Call, n: nat, i: nat, u: Tid)
    requires u != t && Safe(s, Copy(n, i), c)
    ensures Untouched(s, CopyStep(s, t, c, n, i), u)
  {
  }

  lemma LoopStays(s: Pipe, t: Tid, c: Call, n: nat, u: Tid)
    requires u != t
    ensures Untouched(s, LoopStep(s, t, c, n), u)
  {
  }

  lemma OwnWake(s: Pipe, t: Tid, p: Phase, c: Call)
    requires TaskOf(s, t) == Busy(p, c) && Safe(s, p, c) && CallInv(s, t) && WakeInv(s, t)
    requires Serial(s, c.side) && !p.AtSignal? && !p.Count? && !p.Test? && !p.Asleep? && !p.Loop?
    ensures WakeInv(Do(s, t, p, c), t)
  {
    if p.AtMutex? || p.AtMonitor? || p.Reenter? || p.Awake? {
      EntryOwnWake(s, t, p, c);
    }
  }

  lemma EntryOwnWake(s: Pipe, t: Tid, p: Phase, c: Call)
    requires TaskOf(s, t) == Busy(p, c) && Safe(s, p, c) && CallInv(s, t) && WakeInv(s, t) && Serial(s, c.side)
    requires p.AtMutex? || p.AtMonitor? || p.Reenter? || p.Awake?
    ensures WakeInv(Do(s, t, p, c), t)
  {
  }

  lemma LoopOwnWake(s: Pipe, t: Tid, c: Call, n: nat)
    requires TaskOf(s, t) == Busy(Loop(n), c) && CallInv(s, t) && WakeInv(s, t) && Serial(s, c.side)
    ensures WakeInv(LoopStep(s, t, c, n), t)
  {
  }

  lemma TestOwnWake(s: Pipe, t: Tid, c: Call)
    requires TaskOf(s, t) == Busy(Test, c) && Safe(s, Test, c) && CallInv(s, t)
    ensures WakeInv(TestStep(s, t, c), t)
  {
  }

  lemma CountWake(s: Pipe, t: Tid, c: Call, n: nat, u: Tid)
    requires Inv(s) && BothSerial(s) && TaskOf(s, t) == Busy(Count(n), c)
    requires WakeInv(s, t) && WakeInv(s, u) && CallInv(s, t) && CallInv(s, u)
    ensures WakeInv(CountStep(s, t, c, n), u)
  {
    assert MonZones(s)(t) == Inside;
    if u != t && TaskOf(s, u).Busy? {
      assert MonZones(s)(u) != Inside;
      if TaskOf(s, u).call.side == c.side && !TaskOf(s, u).phase.AtMutex? { OnePerSide(s, t, u); }
    }
  }

  lemma SignalWake(s: Pipe, t: Tid, c: Call, n: nat, u: Tid)
    requires Inv(s) && BothSerial(s) && TaskOf(s, t) == Busy(AtSignal(n), c)
    requires WakeInv(s, t) && WakeInv(s, u)
    ensures WakeInv(SignalStep(s, t, c, n), u)
  {
    var o := Other(c.side);
    var q := Cond(s, o);
    OnlySleeper(s, o, u);
    assert q != [] ==> Last(q).who in Names(q) && Sleeping(TaskOf(s, Last(q).who), o);
    assert s.mon.holder == Some(t) by { assert MonZones(s)(t) == Inside; }
    SignalWakes(s, t, c, n, u);
  }

  /** On a serialized side at most one task sleeps, so a signal leaves nobody asleep. */
  lemma OnlySleeper(s: Pipe, o: Side, u: Tid)
    requires LocksInv(s) && CondInv(s, o) && BothSerial(s)
    ensures Sleeping(TaskOf(s, u), o) ==> Cond(s, o) != [] && u == Last(Cond(s, o)).who
  {
    if Sleeping(TaskOf(s, u), o) {
      var q := Cond(s, o);
      assert u in Names(q);
      var w := Last(q).who;
      assert w in Names(q) && Sleeping(TaskOf(s, w), o);
      OnePerSide(s, u, w);
    }
  }

  lemma SignalWakes(s: Pipe, t: Tid, c: Call, n: nat, u: Tid)
    requires TaskOf(s, t) == Busy(AtSignal(n), c) && WakeInv(s, t) && WakeInv(s, u) && s.mon.holder == Some(t)
    requires Cond(s, Other(c.side)) != [] ==> Sleeping(TaskOf(s, Last(Cond(s, Other(c.side))).who), Other(c.side))
    requires Sleeping(TaskOf(s, u), Other(c.side)) ==>
      Cond(s, Other(c.side)) != [] && u == Last(Cond(s, Other(c.side))).who
    ensures WakeInv(SignalStep(s, t, c, n), u)
  {
  }

  lemma BeginWake(s: Pipe, t: Tid, c: Call, u: Tid)
    requires Inv(s) && BothSerial(s) && Enabled(s, Begin(t, c)) && WakeInv(s, u)
    ensures WakeInv(Start(s, t, c), u)
  {
    if u != t { WakeFrame(s, Start(s, t, c), t, u); }
  }

  lemma TimeOutWake(s: Pipe, t: Tid, u: Tid)
    requires Inv(s) && BothSerial(s) && Enabled(s, TimeOut(t)) && WakeInv(s, u) && WakeInv(s, t)
    ensures WakeInv(Step(s, TimeOut(t)), u)
  {
    if u != t { WakeFrame(s, Step(s, TimeOut(t)), t, u); }
  }

  lemma PriorityWake(s: Pipe, t: Tid, prio: nat, u: Tid)
    requires WakeInv(s, u)
    ensures WakeInv(PriorityStep(s, t, prio), u)
  {
    PriorityFrame(s, t, prio, u);
    if s.mon.holder.Some? { PriorityFrame(s, t, prio, s.mon.holder.value); }
    AlikeWake(s, PriorityStep(s, t, prio), u);
  }

  lemma AlikeWake(s: Pipe, s': Pipe, u: Tid)
    requires SameButOrder(s, s') && Alike(TaskOf(s, u), TaskOf(s', u)) && WakeInv(s, u)
    requires s.mon.holder.Some? ==> Alike(TaskOf(s, s.mon.holder.value), TaskOf(s', s.mon.holder.value))
    ensures WakeInv(s', u)
  {
  }

  lemma StepKeepsWake(s: Pipe, a: Action, u: Tid)
    requires Inv(s) && BothSerial(s) && Enabled(s, a) && WakeInv(s, u) && WakeInv(s, a.t)
    ensures WakeInv(Step(s, a), u)
  {
    match a
    case Begin(t, c) => BeginWake(s, t, c, u);
    case TimeOut(t) => TimeOutWake(s, t, u);
    case Prioritize(t, prio) => PriorityWake(s, t, prio, u);
    case Advance(t) =>
      var p, c := TaskOf(s, t).phase, TaskOf(s, t).call;
      assert CallInv(s, t) && CallInv(s, u);
      if p.Count? { CountWake(s, t, c, p.n, u); }
      else if p.AtSignal? { SignalWake(s, t, c, p.n, u); }
      else if u == t {
        if p.Test? {
          TestOwnWake(s, t, c);
        } else if p.Loop? {
          LoopOwnWake(s, t, c, p.n);
        } else {
          OwnWake(s, t, p, c);
        }
      }
      else { AdvanceOthersWake(s, t, u); }
  }

  // ----- a serialized side: each call is one contiguous stretch of the stream -----

  predicate EndsWith<T(==)>(s: seq<T>, x: seq<T>) {
    |x| <= |s| && s[|s|-|x|..] == x
  }

  lemma EndsWithPush<T>(s: seq<T>, x: seq<T>, e: T)
    requires EndsWith(s, x)
    ensures EndsWith(s + [e], x + [e])
  {
    assert (s + [e])[|s|-|x|..] == s[|s|-|x|..] + [e];
  }

  /** Bytes moved by the call so far. */
  function Progress(k: Task): nat { if k.Idle? then 0 else k.call.done + Moved(k.phase) }

  /** The bytes this call has moved so far are the latest bytes of its stream. */
  ghost predicate StretchInv(s: Pipe, t: Tid) {
    var k := TaskOf(s, t);
    k.Busy? && Serial(s, k.call.side) ==>
      && (k.call.side.Put? ==> Progress(k) <= |k.call.data| && EndsWith(s.written, k.call.data[..Progress(k)]))
      && (k.call.side.Get? ==> EndsWith(s.read, k.call.data))
  }

  /** `k'` goes on where `k` was, or starts from nothing. */
  predicate Tracks(k: Task, k': Task) {
    k'.Busy? ==>
      || (k.Busy? && k'.call.side == k.call.side && k'.call.data == k.call.data && Progress(k') == Progress(k))
      || (Progress(k') == 0 && (k'.call.side.Get? ==> k'.call.data == []))
  }

  predicate SameStreams(s: Pipe, s': Pipe) {
    s'.written == s.written && s'.read == s.read && s'.accessGet == s.accessGet && s'.accessPut == s.accessPut
  }

  lemma SignalTracks(s: Pipe, t: Tid, c: Call, n: nat, u: Tid)
    requires TaskOf(s, t) == Busy(AtSignal(n), c)
    requires var q := Cond(s, Other(c.side)); q != [] ==> Sleeping(TaskOf(s, Last(q).who), Other(c.side))
    ensures Tracks(TaskOf(s, u), TaskOf(SignalStep(s, t, c, n), u)) && SameStreams(s, SignalStep(s, t, c, n))
  {
  }

  /** Statements other than the copying of a byte touch neither stream nor anybody's progress. */
  lemma DoTracks(s: Pipe, t: Tid, p: Phase, c: Call, u: Tid)
    requires TaskOf(s, t) == Busy(p, c) && Safe(s, p, c) && (p.Copy? ==> p.i == p.n) && !p.AtSignal?
    ensures Tracks(TaskOf(s, u), TaskOf(Do(s, t, p, c), u)) && SameStreams(s, Do(s, t, p, c))
  {
    if p.Test? {
      TestTracks(s, t, c, u);
    } else if p.Loop? {
      LoopTracks(s, t, c, p.n, u);
    }
  }

  lemma TestTracks(s: Pipe, t: Tid, c: Call, u: Tid)
    requires TaskOf(s, t) == Busy(Test, c) && Safe(s, Test, c)
    ensures Tracks(TaskOf(s, u), TaskOf(TestStep(s, t, c), u)) && SameStreams(s, TestStep(s, t, c))
  {
    if u != t { TestStays(s, t, c, u); }
  }

  lemma LoopTracks(s: Pipe, t: Tid, c: Call, n: nat, u: Tid)
    requires TaskOf(s, t) == Busy(Loop(n), c)
    ensures Tracks(TaskOf(s, u), TaskOf(LoopStep(s, t, c, n), u)) && SameStreams(s, LoopStep(s, t, c, n))
  {
  }

  lemma TracksKeepsStretch(s: Pipe, s': Pipe, u: Tid)
    requires StretchInv(s, u) && Tracks(TaskOf(s, u), TaskOf(s', u))
    requires SameStreams(s, s')
    ensures StretchInv(s', u)
  {
    var k' := TaskOf(s', u);
    if k'.Busy? && Progress(k') == 0 { assert k'.call.data[..0] == []; }
  }

  lemma CopyStretch(s: Pipe, t: Tid, c: Call, n: nat, i: nat, u: Tid)
    requires LocksInv(s) && TaskOf(s, t) == Busy(Copy(n, i), c) && i < n && CallInv(s, t) && CallInv(s, u)
    requires s.head < |s.buf| == s.size && s.tail < s.size && StretchInv(s, t) && StretchInv(s, u)
    ensures StretchInv(CopyStep(s, t, c, n, i), u)
  {
    if Serial(s, c.side) && TaskOf(s, u).Busy? && TaskOf(s, u).call.side == c.side {
      if u == t {
        OwnCopyStretch(s, t, c, n, i);
      } else {
        assert MutZones(s, c.side)(t) == Inside;
        assert MutZones(s, c.side)(u) != Inside;
        assert TaskOf(s, u).call.data[..0] == [];
      }
    }
  }

  lemma OwnCopyStretch(s: Pipe, t: Tid, c: Call, n: nat, i: nat)
    requires TaskOf(s, t) == Busy(Copy(n, i), c) && i < n && CallInv(s, t) && Serial(s, c.side)
    requires s.head < |s.buf| == s.size && s.tail < s.size && StretchInv(s, t)
    ensures StretchInv(CopyStep(s, t, c, n, i), t)
  {
    if c.side.Put? {
      var k := c.done + i;
      assert k == Progress(TaskOf(s, t));
      assert c.data[..k + 1] == c.data[..k] + [c.data[k]];
      EndsWithPush(s.written, c.data[..k], c.data[k]);
    } else {
      EndsWithPush(s.read, c.data, s.buf[s.head]);
    }
  }

  lemma AdvanceStretch(s: Pipe, t: Tid, u: Tid)
    requires Inv(s) && Enabled(s, Advance(t)) && StretchInv(s, u) && StretchInv(s, t) && CallInv(s, u) && CallInv(s, t)
    ensures StretchInv(Step(s, Advance(t)), u)
  {
    var p, c := TaskOf(s, t).phase, TaskOf(s, t).call;
    if p.Copy? && p.i < p.n {
      CopyStretch(s, t, c, p.n, p.i, u);
    } else {
      if p.AtSignal? {
        var q := Cond(s, Other(c.side));
        assert q != [] ==> Last(q).who in Names(q);
        SignalTracks(s, t, c, p.n, u);
      } else {
        DoTracks(s, t, p, c, u);
      }
      TracksKeepsStretch(s, Step(s, Advance(t)), u);
    }
  }

  lemma BeginStretch(s: Pipe, t: Tid, c: Call, u: Tid)
    requires Enabled(s, Begin(t, c)) && StretchInv(s, u)
    ensures StretchInv(Start(s, t, c), u)
  {
    TracksKeepsStretch(s, Start(s, t, c), u);
  }

  lemma TimeOutStretch(s: Pipe, t: Tid, u: Tid)
    requires Enabled(s, TimeOut(t)) && StretchInv(s, u)
    ensures StretchInv(Step(s, TimeOut(t)), u)
  {
    TracksKeepsStretch(s, Step(s, TimeOut(t)), u);
  }

  lemma PriorityStretch(s: Pipe, t: Tid, prio: nat, u: Tid)
    requires StretchInv(s, u)
    ensures StretchInv(PriorityStep(s, t, prio), u)
  {
    TracksKeepsStretch(s, PriorityStep(s, t, prio), u);
  }

  lemma StepKeepsStretch(s: Pipe, a: Action, u: Tid)
    requires Inv(s) && Enabled(s, a) && StretchInv(s, u) && StretchInv(s, a.t)
    ensures StretchInv(Step(s, a), u)
  {
    match a
    case Begin(t, c) => BeginStretch(s, t, c, u);
    case TimeOut(t) => TimeOutStretch(s, t, u);
    case Prioritize(t, prio) => PriorityStretch(s, t, prio, u);
    case Advance(t) =>
      assert CallInv(s, u) && CallInv(s, t);
      AdvanceStretch(s, t, u);
  }

  // ----- whole runs -----

  ghost predicate Possible(s: Pipe, acts: seq<Action>)
    decreases acts
  {
    acts == [] || (Enabled(s, acts[0]) && Possible(Step(s, acts[0]), acts[1..]))
  }

  function Run(s: Pipe, acts: seq<Action>): Pipe
    decreases acts
  {
    if acts == [] then s else Run(Step(s, acts[0]), acts[1..])
  }

  /** All that holds between any two statements. */
  ghost predicate Good(s: Pipe) {
    && Inv(s)
    && (BothSerial(s) ==> forall t: Tid :: WakeInv(s, t))
    && forall t: Tid :: StretchInv(s, t)
  }

  lemma InitIsGood(size: nat, accessGet: Access, accessPut: Access)
    requires size > 0
    ensures Good(Init(size, accessGet, accessPut))
  {
    var s := Init(size, accessGet, accessPut);
    assert Contents(s.buf, 0, 0) == [];
  }

  lemma StepKeepsGood(s: Pipe, a: Action)
    requires Good(s) && Enabled(s, a)
    ensures Good(Step(s, a))
  {
    StepKeepsInv(s, a);
    var s' := Step(s, a);
    StepKeepsKind(s, a);
    forall u: Tid ensures StretchInv(s', u) && (BothSerial(s) ==> WakeInv(s', u)) {
      StepKeepsStretch(s, a, u);
      if BothSerial(s) { StepKeepsWake(s, a, u); }
    }
  }

  predicate SameKind(s: Pipe, s': Pipe) {
    s'.accessGet == s.accessGet && s'.accessPut == s.accessPut
  }

  lemma TestKeepsKind(s: Pipe, t: Tid, c: Call)
    requires c.done <= c.want && s.avail <= s.size
    ensures SameKind(s, TestStep(s, t, c))
  {
  }

  lemma SignalKeepsKind(s: Pipe, t: Tid, c: Call, n: nat)
    ensures SameKind(s, SignalStep(s, t, c, n))
  {
  }

  lemma StepKeepsKind(s: Pipe, a: Action)
    ensures SameKind(s, Step(s, a))
  {
    if a.Advance? && TaskOf(s, a.t).Busy? {
      var p, c := TaskOf(s, a.t).phase, TaskOf(s, a.t).call;
      if Safe(s, p, c) {
        match p
        case Test => TestKeepsKind(s, a.t, c);
        case AtSignal(n) => SignalKeepsKind(s, a.t, c, n);
        case _ => assert SameKind(s, Do(s, a.t, p, c));
      }
    }
  }

  lemma {:induction false} RunIsGood(s: Pipe, acts: seq<Action>)
    requires Good(s) && Possible(s, acts)
    ensures Good(Run(s, acts)) && Run(s, acts).accessGet == s.accessGet && Run(s, acts).accessPut == s.accessPut
    decreases acts
  {
    if acts != [] {
      StepKeepsGood(s, acts[0]);
      StepKeepsKind(s, acts[0]);
      RunIsGood(Step(s, acts[0]), acts[1..]);
    }
  }

  /** The state after any possible run on a new pipe. */
  ghost predicate Reachable(s: Pipe) {
    exists size: nat, accessGet: Access, accessPut: Access, acts: seq<Action> ::
      size > 0 && Possible(Init(size, accessGet, accessPut), acts) && s == Run(Init(size, accessGet, accessPut), acts)
  }

  lemma ReachableIsGood(s: Pipe)
    requires Reachable(s)
    ensures Good(s)
  {
    var size: nat, accessGet: Access, accessPut: Access, acts: seq<Action> :|
      size > 0 && Possible(Init(size, accessGet, accessPut), acts) && s == Run(Init(size, accessGet, accessPut), acts);
    InitIsGood(size, accessGet, accessPut);
    RunIsGood(Init(size, accessGet, accessPut), acts);
  }

  /** Nobody is in the middle of a visit to the monitor. */
  predicate MonitorFree(s: Pipe) { s.mon.holder.None? }

  /**
   The stream law.  Whatever the interleaving and the mutexes, in the middle of a copy too, the bytes ever written
   are the bytes ever read followed by the bytes of the ring from `head` on: `avail` of them, corrected by what the
   task inside the monitor has copied and not counted yet.
   */
  lemma StreamLaw(s: Pipe)
    requires Reachable(s)
    ensures 0 < |s.buf| == s.size && s.head < s.size && s.avail <= s.size
    ensures var live := s.avail + Drift(s);
      && 0 <= live <= s.size && s.tail == At(s.size, s.head, live)
      && s.written == s.read + Contents(s.buf, s.head, live)
    ensures MonitorFree(s) ==> Drift(s) == 0
  {
    ReachableIsGood(s);
  }

  /** With both sides serialized and the monitor free, readers sleep only on an empty pipe and writers on a full one. */
  lemma SleepersAreStuck(s: Pipe, t: Tid)
    requires Reachable(s) && BothSerial(s) && MonitorFree(s)
    ensures Sleeping(TaskOf(s, t), Get) ==> s.avail == 0
    ensures Sleeping(TaskOf(s, t), Put) ==> s.avail == s.size
  {
    ReachableIsGood(s);
    assert WakeInv(s, t);
  }

  /** So a reader and a writer never sleep at the same time while the monitor is free. */
  lemma NeverBothAsleep(s: Pipe, t: Tid, u: Tid)
    requires Reachable(s) && BothSerial(s) && MonitorFree(s)
    ensures !(Sleeping(TaskOf(s, t), Get) && Sleeping(TaskOf(s, u), Put))
  {
    SleepersAreStuck(s, t);
    SleepersAreStuck(s, u);
    ReachableIsGood(s);
  }

  /** With both sides serialized, a task woken by a signal finds a byte, or room for one, when it is back inside. */
  lemma SignalledFindsWork(s: Pipe, t: Tid, c: Call)
    requires Reachable(s) && BothSerial(s)
    requires TaskOf(s, t) == Busy(Reenter(true), c) && s.mon.holder == Some(t)
    ensures var s' := Step(s, Advance(t));
      TaskOf(s', t).Busy? && TaskOf(s', t).phase.Copy? && TaskOf(s', t).phase.n > 0
  {
    ReachableIsGood(s);
    assert WakeInv(s, t) && CallInv(s, t);
  }

  /**
   With both sides serialized and no time limit, PutPipe and GetPipe(get_all) return only when all the bytes asked for
   have been moved, and those bytes are the latest contiguous stretch of the stream.
   */
  lemma ForeverMovesAll(s: Pipe, t: Tid, c: Call)
    requires Reachable(s) && BothSerial(s)
    requires TaskOf(s, t) == Busy(AtUnlock, c) && c.limit.Forever? && c.all
    ensures c.done == c.want == |c.data|
    ensures EndsWith(if c.side.Put? then s.written else s.read, c.data)
  {
    ReachableIsGood(s);
    assert WakeInv(s, t) && CallInv(s, t) && StretchInv(s, t);
    assert c.data[..c.done] == c.data || c.side.Get?;
  }

  /** On a serialized side, the bytes a writer has put in so far are contiguous in the stream, timeouts and all. */
  lemma WritesAreContiguous(s: Pipe, t: Tid, p: Phase, c: Call)
    requires Reachable(s) && Serial(s, Put) && TaskOf(s, t) == Busy(p, c) && c.side.Put?
    ensures c.done + Moved(p) <= |c.data| && EndsWith(s.written, c.data[..c.done + Moved(p)])
  {
    ReachableIsGood(s);
    assert StretchInv(s, t);
  }

  /** On a serialized side, a reader receives exactly the latest bytes that left the ring. */
  lemma ReadsAreContiguous(s: Pipe, t: Tid, p: Phase, c: Call)
    requires Reachable(s) && Serial(s, Get) && TaskOf(s, t) == Busy(p, c) && c.side.Get?
    ensures |c.data| == c.done + Moved(p) && EndsWith(s.read, c.data)
  {
    ReachableIsGood(s);
    assert StretchInv(s, t) && CallInv(s, t);
  }

  /**
   The monitor is never misused: a task about to enter does not hold it, a task about to wait, signal or leave
   does, and no statement reads or writes outside the ring or the caller's `want` bytes.
   */
  lemma NeverPanics(s: Pipe, t: Tid, p: Phase, c: Call)
    requires Reachable(s) && TaskOf(s, t) == Busy(p, c)
    ensures p.AtMutex? || p.Awake? || p.Loop? ==> s.mon.holder != Some(t)
    ensures p.Test? || p.AtSignal? || p.AtLeave? ==> s.mon.holder == Some(t)
    ensures p.Copy? || p.Count? ==> s.mon.holder == Some(t)
    ensures p.Copy? && p.i < p.n ==> c.done + p.i < c.want
    ensures Safe(s, p, c)
  {
    ReachableIsGood(s);
    assert CallInv(s, t);
    assert MonZones(s)(t) == MonZone(TaskOf(s, t));
  }

  // ----- both sides serialized: somebody can always go on -----

  /** While the monitor is free, the task that owns the mutex of a side can go on, or sleeps on its condition. */
  lemma OwnerGoesOn(s: Pipe, side: Side, v: Tid)
    requires LocksInv(s) && BothSerial(s) && MonitorFree(s) && Mut(s, side).holder == Some(v)
    ensures Enabled(s, Advance(v)) || Sleeping(TaskOf(s, v), side)
  {
    assert MutZones(s, side)(v) != Away;
    assert MonZones(s)(v) == MonZone(TaskOf(s, v));
  }

  /** A call in progress finds the mutex of its side owned. */
  lemma SideIsOwned(s: Pipe, t: Tid)
    requires LocksInv(s) && BothSerial(s) && TaskOf(s, t).Busy?
    ensures Mut(s, TaskOf(s, t).call.side).holder.Some?
  {
    var side := TaskOf(s, t).call.side;
    assert MutZones(s, side)(t) == MutZone(TaskOf(s, t), side);
  }

  /** The task that owns the monitor can go on. */
  lemma HolderGoesOn(s: Pipe, h: Tid)
    requires LocksInv(s) && s.mon.holder == Some(h)
    ensures Enabled(s, Advance(h))
  {
    assert MonZones(s)(h) == MonZone(TaskOf(s, h)) && MonZone(TaskOf(s, h)) != Away;
  }

  /**
   No deadlock.  With both sides serialized, while a get call and a put call are in progress some task can execute
   its next statement.
   */
  lemma SomebodyGoesOn(s: Pipe, t: Tid, u: Tid)
    requires Reachable(s) && BothSerial(s)
    requires TaskOf(s, t).Busy? && TaskOf(s, t).call.side.Get? && TaskOf(s, u).Busy? && TaskOf(s, u).call.side.Put?
    ensures exists v :: Enabled(s, Advance(v))
  {
    ReachableIsGood(s);
    if MonitorFree(s) {
      SideIsOwned(s, t);
      SideIsOwned(s, u);
      var g, p := s.mutGet.holder.value, s.mutPut.holder.value;
      OwnerGoesOn(s, Get, g);
      OwnerGoesOn(s, Put, p);
      NeverBothAsleep(s, g, p);
    } else {
      HolderGoesOn(s, s.mon.holder.value);
    }
  }
}
