/**
 mtask2's timed waits: several semaphores whose waiters share one time queue.  A wait with a limit of `n` ticks is
 answered by a signal or a flush of its semaphore, or by clock interrupt number `n`, counted from 0, and by nothing
 else.
 */
module TimedWaits {
  import opened Base
  import opened WaitOrder
  import opened DeltaOrder
  import S = Semaphores

  /** How long a caller is willing to wait, in ticks. */
  datatype Span = Zero | Until(ticks: nat) | Unlimited

  datatype System = System(sems: seq<S.Sem>, alarms: seq<Alarm<Tid>>)

  /**
   Everything that can happen, each with interrupts disabled; `Elsewhere` is any other use of the time queue, by a
   task that waits at none of the semaphores.
   */
  datatype Event =
    | Wait(t: Tid, prio: nat, k: nat, span: Span)
    | Signal(k: nat)
    | Flush(k: nat, ok: bool)
    | Interrupt
    | SetPriority(t: Tid, prio: nat)
    | Elsewhere(op: Op<Tid>)

  ghost predicate Nowhere(s: System, t: Tid) {
    forall j :: 0 <= j < |s.sems| ==> t !in Names(s.sems[j].queue)
  }

  /** The task neither waits nor has an alarm set. */
  ghost predicate Away(s: System, t: Tid) { Nowhere(s, t) && Unarmed(s.alarms, t) }

  /** The task waits at semaphore `k` and nowhere else. */
  ghost predicate WaitsAt(s: System, t: Tid, k: nat) {
    k < |s.sems| && forall j :: 0 <= j < |s.sems| ==> (t in Names(s.sems[j].queue) <==> j == k)
  }

  ghost predicate Valid(s: System) {
    forall j :: 0 <= j < |s.sems| ==> S.ValidSem(s.sems[j])
  }

  /** A blocked task does not call. */
  ghost predicate Enabled(s: System, e: Event) {
    match e
    case Wait(t, _, k, _) => k < |s.sems| && Away(s, t)
    case Signal(k) => k < |s.sems|
    case Flush(k, _) => k < |s.sems|
    case Interrupt => true
    case SetPriority(_, _) => true
    case Elsewhere(op) => !op.Tick? && Nowhere(s, op.who)
  }

  /** The tasks woken by the clock leave the queue. */
  function DropAll(m: S.Sem, ts: seq<Tid>): S.Sem
    decreases ts
  {
    if ts == [] then m else DropAll(S.Do(m, S.Expire(ts[0])), ts[1..])
  }

  /** The tasks woken by a flush leave the time queue. */
  function CancelAll(q: seq<Alarm<Tid>>, ts: seq<Tid>): seq<Alarm<Tid>>
    decreases ts
  {
    if ts == [] then q else CancelAll(RemoveAlarm(q, ts[0]), ts[1..])
  }

  function OnEach(sems: seq<S.Sem>, f: S.Sem -> S.Sem): (r: seq<S.Sem>)
    ensures |r| == |sems| && forall j :: 0 <= j < |r| ==> r[j] == f(sems[j])
  {
    seq(|sems|, j requires 0 <= j < |sems| => f(sems[j]))
  }

  function Step(s: System, e: Event): System {
    match e
    case Wait(t, prio, k, span) =>
      if k >= |s.sems| then s
      else
        var m := S.Do(s.sems[k], S.WaitSem(t, prio, span.Zero?));
        var armed := s.sems[k].value == 0 && span.Until?;
        System(s.sems[k := m], if armed then InsertAlarm(s.alarms, Alarm(t, span.ticks)) else s.alarms)
    case Signal(k) =>
      if k >= |s.sems| then s
      else
        var q := s.sems[k].queue;
        System(s.sems[k := S.Do(s.sems[k], S.SignalSem)],
          if q == [] then s.alarms else RemoveAlarm(s.alarms, Last(q).who))
    case Flush(k, ok) =>
      if k >= |s.sems| then s
      else
        System(s.sems[k := S.Do(s.sems[k], S.FlushSem(ok))], CancelAll(s.alarms, S.Waiters(s.sems[k].queue)))
    case Interrupt => System(OnEach(s.sems, m => DropAll(m, Woken(s.alarms))), Clock(s.alarms))
    case SetPriority(t, prio) => s.(sems := OnEach(s.sems, m => S.Do(m, S.SetPriority(t, prio))))
    case Elsewhere(op) => s.(alarms := Apply(s.alarms, op))
  }

  /** What the event answers to a task that waits, if anything. */
  ghost function Answer(s: System, e: Event, t: Tid): Option<bool> {
    match e
    case Signal(k) =>
      if k < |s.sems| && s.sems[k].queue != [] && Last(s.sems[k].queue).who == t then Some(true) else None
    case Flush(k, ok) => if k < |s.sems| && t in Names(s.sems[k].queue) then Some(ok) else None
    case Interrupt => if t in Woken(s.alarms) then Some(false) else None
    case _ => None
  }

  // ----- what one event does -----

  lemma {:induction false} DropAllNames(m: S.Sem, ts: seq<Tid>)
    requires S.ValidSem(m)
    ensures S.ValidSem(DropAll(m, ts))
    ensures forall t :: t in Names(DropAll(m, ts).queue) <==> t in Names(m.queue) && t !in ts
    decreases ts
  {
    if ts != [] {
      WithoutKeepsValid(m.queue, ts[0], m.clock);
      DropAllNames(S.Do(m, S.Expire(ts[0])), ts[1..]);
      assert ts == [ts[0]] + ts[1..];
    }
  }

  lemma {:induction false} RemovedIsGone(s: seq<Due<Tid>>, t: Tid)
    requires |Delays(s, t)| <= 1
    ensures Delays(RemoveDue(s, t), t) == []
  {
    if s != [] {
      if s[0].who == t {
        assert Delays(s, t)[1..] == Delays(s[1..], t);
      } else {
        RemovedIsGone(s[1..], t);
        assert RemoveDue(s, t)[1..] == RemoveDue(s[1..], t);
      }
    }
  }

  /** Alarms of a task after its own or another one's is cancelled. */
  lemma CancelDelays(q: seq<Alarm<Tid>>, u: Tid, t: Tid)
    ensures u != t ==> Delays(Schedule(RemoveAlarm(q, u), 0), t) == Delays(Schedule(q, 0), t)
    ensures u == t && |Delays(Schedule(q, 0), t)| <= 1 ==> Unarmed(RemoveAlarm(q, u), t)
  {
    RemoveAlarmRefines(q, u, 0);
    if u == t {
      if |Delays(Schedule(q, 0), t)| <= 1 { RemovedIsGone(Schedule(q, 0), t); }
    } else {
      RemoveDueDelays(Schedule(q, 0), u, t);
    }
  }

  lemma {:induction false} CancelAllDelays(q: seq<Alarm<Tid>>, ts: seq<Tid>, t: Tid)
    requires |Delays(Schedule(q, 0), t)| <= 1
    ensures t !in ts ==> Delays(Schedule(CancelAll(q, ts), 0), t) == Delays(Schedule(q, 0), t)
    ensures t in ts ==> Unarmed(CancelAll(q, ts), t)
    decreases ts
  {
    if ts != [] {
      CancelDelays(q, ts[0], t);
      CancelAllDelays(RemoveAlarm(q, ts[0]), ts[1..], t);
      assert ts == [ts[0]] + ts[1..];
      if t == ts[0] && t !in ts[1..] {
        assert Delays(Schedule(CancelAll(q, ts), 0), t) == [];
      }
    }
  }

  lemma WaitersAreNames(q: seq<Entry<Tid>>, t: Tid)
    ensures t in S.Waiters(q) <==> t in Names(q)
  {
    if t in Names(q) {
      var i :| 0 <= i < |q| && q[i].who == t;
      assert S.Waiters(q)[i] == t;
    }
  }

  lemma StepKeepsValid(s: System, e: Event)
    requires Valid(s) && Enabled(s, e)
    ensures Valid(Step(s, e)) && |Step(s, e).sems| == |s.sems|
  {
    match e
    case Wait(t, prio, k, span) => S.StepKeepsValid(s.sems[k], S.WaitSem(t, prio, span.Zero?));
    case Signal(k) => S.StepKeepsValid(s.sems[k], S.SignalSem);
    case Flush(k, ok) => S.StepKeepsValid(s.sems[k], S.FlushSem(ok));
    case Interrupt =>
      forall j | 0 <= j < |s.sems| ensures S.ValidSem(Step(s, e).sems[j]) {
        DropAllNames(s.sems[j], Woken(s.alarms));
      }
    case SetPriority(t, prio) =>
      forall j | 0 <= j < |s.sems| ensures S.ValidSem(Step(s, e).sems[j]) {
        S.StepKeepsValid(s.sems[j], S.SetPriority(t, prio));
      }
    case Elsewhere(op) =>
  }

  /** Where a task that makes no call is after an event that does not answer it, and after one that does. */
  lemma StepNames(s: System, e: Event, t: Tid, j: nat)
    requires Valid(s) && Enabled(s, e) && j < |s.sems| && (e.Wait? ==> e.t != t)
    ensures j < |Step(s, e).sems|
    ensures t in Names(Step(s, e).sems[j].queue) <==> t in Names(s.sems[j].queue) && !Takes(s, e, t, j)
  {
    match e
    case Wait(u, prio, k, span) => WaitNames(s.sems[k], u, prio, span.Zero?);
    case Signal(k) => if s.sems[k].queue != [] { FrontKeepsValid(s.sems[k].queue, s.sems[k].clock); }
    case Flush(k, ok) =>
    case Interrupt => DropAllNames(s.sems[j], Woken(s.alarms));
    case SetPriority(u, prio) => RequeueKeepsValid(s.sems[j].queue, u, prio, s.sems[j].clock);
    case Elsewhere(op) =>
  }

  lemma WaitNames(m: S.Sem, u: Tid, prio: nat, cond: bool)
    requires S.ValidSem(m) && u !in Names(m.queue)
    ensures forall t :: t != u ==> (t in Names(S.Do(m, S.WaitSem(u, prio, cond)).queue) <==> t in Names(m.queue))
  {
    InsertKeepsValid(m.queue, Entry(u, prio, m.clock), m.clock);
  }

  /** The event takes the task out of queue `j`. */
  ghost predicate Takes(s: System, e: Event, t: Tid, j: nat)
    requires j < |s.sems|
  {
    match e
    case Signal(k) => k == j && s.sems[k].queue != [] && Last(s.sems[k].queue).who == t
    case Flush(k, _) => k == j
    case Interrupt => t in Woken(s.alarms)
    case _ => false
  }

  /** The clock interrupts among the events. */
  function Interrupts(es: seq<Event>): nat {
    if es == [] then 0 else (if es[0].Interrupt? then 1 else 0) + Interrupts(es[1..])
  }

  /** The alarm of a task that waits at `k`: it comes nearer with the clock and ends with the wait. */
  lemma StepAlarm(s: System, e: Event, t: Tid, k: nat, d: nat)
    requires Valid(s) && Enabled(s, e) && WaitsAt(s, t, k) && Pending(s.alarms, t, d)
    ensures Answer(s, e, t).Some? ==> Unarmed(Step(s, e).alarms, t)
    ensures Answer(s, e, t).None? && !e.Interrupt? ==> Pending(Step(s, e).alarms, t, d)
    ensures Answer(s, e, t).None? && e.Interrupt? ==> d > 0 && Pending(Step(s, e).alarms, t, d - 1)
    ensures e.Interrupt? ==> (Answer(s, e, t).Some? <==> d == 0)
  {
    match e
    case Wait(u, prio, j, span) => if span.Until? { ApplyDelays(s.alarms, SetAlarm(u, span.ticks), t); }
    case Signal(j) => if s.sems[j].queue != [] { SignalAlarm(s, j, t, k, d); }
    case Flush(j, ok) =>
      WaitersAreNames(s.sems[j].queue, t);
      CancelAllDelays(s.alarms, S.Waiters(s.sems[j].queue), t);
    case Interrupt =>
      WokenIffDue(s.alarms, t);
      ApplyDelays(s.alarms, Tick, t);
      ElapseDelays(Schedule(s.alarms, 0), t);
    case SetPriority(u, prio) =>
    case Elsewhere(op) =>
      assert t in Names(s.sems[k].queue);
      ApplyDelays(s.alarms, op, t);
  }

  lemma SignalAlarm(s: System, j: nat, t: Tid, k: nat, d: nat)
    requires WaitsAt(s, t, k) && Pending(s.alarms, t, d) && j < |s.sems| && s.sems[j].queue != []
    ensures Last(s.sems[j].queue).who == t ==> Unarmed(Step(s, Signal(j)).alarms, t)
    ensures Last(s.sems[j].queue).who != t ==> Pending(Step(s, Signal(j)).alarms, t, d)
  {
    CancelDelays(s.alarms, Last(s.sems[j].queue).who, t);
  }

  /** A wait goes on until it is answered, and is over then. */
  lemma StepWaiter(s: System, e: Event, t: Tid, k: nat)
    requires Valid(s) && Enabled(s, e) && WaitsAt(s, t, k)
    ensures Answer(s, e, t).None? ==> WaitsAt(Step(s, e), t, k)
    ensures Answer(s, e, t).Some? ==> Nowhere(Step(s, e), t)
  {
    StepKeepsValid(s, e);
    assert t in Names(s.sems[k].queue);
    forall j | 0 <= j < |s.sems|
      ensures t in Names(Step(s, e).sems[j].queue) <==> j == k && Answer(s, e, t).None?
    {
      assert s.sems[j].queue != [] ==> Last(s.sems[j].queue).who in Names(s.sems[j].queue);
      StepNames(s, e, t, j);
    }
  }

  /** A task that is away and makes no call gets no answer and stays away. */
  lemma StepAway(s: System, e: Event, t: Tid)
    requires Valid(s) && Enabled(s, e) && Away(s, t) && !Calls(e, t)
    ensures Answer(s, e, t).None? && Away(Step(s, e), t)
  {
    StepKeepsValid(s, e);
    forall j | 0 <= j < |s.sems| ensures t !in Names(Step(s, e).sems[j].queue) {
      StepNames(s, e, t, j);
    }
    match e
    case Wait(u, prio, j, span) => if span.Until? { ApplyDelays(s.alarms, SetAlarm(u, span.ticks), t); }
    case Signal(j) =>
      if s.sems[j].queue != [] {
        assert Last(s.sems[j].queue).who in Names(s.sems[j].queue);
        CancelDelays(s.alarms, Last(s.sems[j].queue).who, t);
      }
    case Flush(j, ok) =>
      WaitersAreNames(s.sems[j].queue, t);
      CancelAllDelays(s.alarms, S.Waiters(s.sems[j].queue), t);
    case Interrupt =>
      WokenIffDue(s.alarms, t);
      ApplyDelays(s.alarms, Tick, t);
      ElapseDelays(Schedule(s.alarms, 0), t);
    case SetPriority(u, prio) =>
    case Elsewhere(op) => ApplyDelays(s.alarms, op, t);
  }

  predicate Calls(e: Event, t: Tid) {
    (e.Wait? && e.t == t) || (e.Elsewhere? && !e.op.Tick? && e.op.who == t)
  }

  /** The semaphore's own record of the waits that an event grants: an answer is true exactly for those. */
  lemma TrueIsGranted(s: System, e: Event, t: Tid, k: nat)
    requires Valid(s) && Enabled(s, e) && WaitsAt(s, t, k) && (e.Signal? || e.Flush?)
    ensures Answer(s, e, t) == Some(true) <==>
      t in S.Granted(s.sems[e.k], if e.Signal? then S.SignalSem else S.FlushSem(e.ok))
    ensures e == Flush(k, false) ==> Answer(s, e, t) == Some(false)
  {
    WaitersAreNames(s.sems[e.k].queue, t);
    assert t in Names(s.sems[e.k].queue) <==> e.k == k;
    var q := s.sems[e.k].queue;
    if q != [] {
      assert Last(q).who in Names(q);
    }
  }

  // ----- whole runs -----

  ghost predicate Possible(s: System, es: seq<Event>)
    decreases es
  {
    es == [] || (Enabled(s, es[0]) && Possible(Step(s, es[0]), es[1..]))
  }

  /** The answers a task gets, each with the number of clock interrupts before it. */
  ghost function Answers(s: System, es: seq<Event>, t: Tid, now: nat): seq<(nat, bool)>
    decreases es
  {
    if es == [] then []
    else
      var a := Answer(s, es[0], t);
      var rest := Answers(Step(s, es[0]), es[1..], t, if es[0].Interrupt? then now + 1 else now);
      if a.Some? then [(now, a.value)] + rest else rest
  }

  ghost predicate MakesNoCall(es: seq<Event>, t: Tid) {
    forall i :: 0 <= i < |es| ==> !Calls(es[i], t)
  }

  /** A signal or flush of semaphore `k`. */
  predicate Aims(e: Event, k: nat) {
    (e.Signal? && e.k == k) || (e.Flush? && e.k == k)
  }

  ghost predicate Unsignalled(es: seq<Event>, k: nat) {
    forall i :: 0 <= i < |es| ==> !Aims(es[i], k)
  }

  ghost predicate Unflushed(es: seq<Event>, k: nat) {
    forall i :: 0 <= i < |es| ==> !(es[i].Flush? && es[i].k == k)
  }

  lemma {:induction false} NoMoreAnswers(s: System, es: seq<Event>, t: Tid, now: nat)
    requires Valid(s) && Possible(s, es) && Away(s, t) && MakesNoCall(es, t)
    ensures Answers(s, es, t, now) == []
    decreases es
  {
    if es != [] {
      StepKeepsValid(s, es[0]);
      StepAway(s, es[0], t);
      NoMoreAnswers(Step(s, es[0]), es[1..], t, if es[0].Interrupt? then now + 1 else now);
    }
  }

  /**
   Over every run, whatever else happens: a wait whose alarm is `d` ticks away is answered once at most, with clock
   interrupt number `d` at the latest, and unless somebody flushes its semaphore the answer is false at that interrupt
   only.
   */
  lemma {:induction false} TimedWaitEnds(s: System, es: seq<Event>, t: Tid, k: nat, d: nat, now: nat)
    requires Valid(s) && Possible(s, es) && WaitsAt(s, t, k) && Pending(s.alarms, t, d) && MakesNoCall(es, t)
    ensures var r := Answers(s, es, t, now);
      && |r| <= 1 && (Interrupts(es) > d ==> |r| == 1)
      && (r != [] ==> now <= r[0].0 <= now + d)
      && (r != [] && !r[0].1 && Unflushed(es, k) ==> r[0].0 == now + d)
    decreases es
  {
    if es != [] {
      var e := es[0];
      var s', next := Step(s, e), if e.Interrupt? then now + 1 else now;
      StepKeepsValid(s, e);
      StepAlarm(s, e, t, k, d);
      StepWaiter(s, e, t, k);
      if Answer(s, e, t).Some? {
        NoMoreAnswers(s', es[1..], t, next);
        FalseAnswer(s, e, t, k);
      } else {
        TimedWaitEnds(s', es[1..], t, k, if e.Interrupt? then d - 1 else d, next);
      }
    }
  }

  lemma FalseAnswer(s: System, e: Event, t: Tid, k: nat)
    requires WaitsAt(s, t, k) && Answer(s, e, t).Some?
    ensures !Answer(s, e, t).value ==> e.Interrupt? || (e.Flush? && e.k == k)
  {
  }

  lemma StillUnsignalled(es: seq<Event>, t: Tid, k: nat)
    requires es != [] && Unsignalled(es, k) && MakesNoCall(es, t)
    ensures Unsignalled(es[1..], k) && MakesNoCall(es[1..], t)
  {
  }

  /** Without a signal or flush of its semaphore no answer comes before clock interrupt number `d`. */
  lemma {:induction false} NotBeforeItsTime(s: System, es: seq<Event>, t: Tid, k: nat, d: nat, now: nat)
    requires Valid(s) && Possible(s, es) && WaitsAt(s, t, k) && Pending(s.alarms, t, d) && MakesNoCall(es, t)
    requires Unsignalled(es, k) && Interrupts(es) <= d
    ensures |Answers(s, es, t, now)| == 0
    decreases es
  {
    if es != [] {
      var e := es[0];
      var s', d' := Step(s, e), if e.Interrupt? then d - 1 else d;
      UnsignalledStep(s, e, t, k, d);
      NoAnswerYet(s, es, t, now);
      StepKeepsValid(s, e);
      StillUnsignalled(es, t, k);
      NotBeforeItsTime(s', es[1..], t, k, d', if e.Interrupt? then now + 1 else now);
    }
  }

  lemma {:induction false} OnlyFalse(s: System, es: seq<Event>, t: Tid, k: nat, d: nat, now: nat)
    requires Valid(s) && Possible(s, es) && WaitsAt(s, t, k) && Pending(s.alarms, t, d) && MakesNoCall(es, t)
    requires Unsignalled(es, k)
    ensures Answers(s, es, t, now) != [] ==> !Answers(s, es, t, now)[0].1
    decreases es
  {
    if es != [] {
      var e := es[0];
      StepKeepsValid(s, e);
      UnsignalledStep(s, e, t, k, d);
      StillUnsignalled(es, t, k);
      FirstAnswer(s, es, t, now);
      if Answer(s, e, t).None? {
        OnlyFalse(Step(s, e), es[1..], t, k, if e.Interrupt? then d - 1 else d, if e.Interrupt? then now + 1 else now);
      }
    }
  }

  /** When nobody signals or flushes its semaphore, the wait returns false at clock interrupt number `d`. */
  lemma UnsignalledTimesOut(s: System, es: seq<Event>, t: Tid, k: nat, d: nat, now: nat)
    requires Valid(s) && Possible(s, es) && WaitsAt(s, t, k) && Pending(s.alarms, t, d) && MakesNoCall(es, t)
    requires Unsignalled(es, k)
    ensures var r := Answers(s, es, t, now);
      if Interrupts(es) > d then |r| == 1 && r[0].0 == now + d && !r[0].1 else |r| == 0
  {
    if Interrupts(es) > d {
      TimedWaitEnds(s, es, t, k, d, now);
      OnlyFalse(s, es, t, k, d, now);
      NorFlushed(es, k);
    } else {
      NotBeforeItsTime(s, es, t, k, d, now);
    }
  }

  lemma NorFlushed(es: seq<Event>, k: nat)
    requires Unsignalled(es, k)
    ensures Unflushed(es, k)
  {
    assert forall i :: 0 <= i < |es| ==> !Aims(es[i], k);
  }

  lemma NoAnswerYet(s: System, es: seq<Event>, t: Tid, now: nat)
    requires es != [] && Answer(s, es[0], t).None?
    ensures |Answers(s, es, t, now)|
         == |Answers(Step(s, es[0]), es[1..], t, if es[0].Interrupt? then now + 1 else now)|
    ensures Interrupts(es) == (if es[0].Interrupt? then 1 else 0) + Interrupts(es[1..])
  {
  }

  lemma FirstAnswer(s: System, es: seq<Event>, t: Tid, now: nat)
    requires es != []
    ensures var a, next := Answer(s, es[0], t), if es[0].Interrupt? then now + 1 else now;
      var rest := Answers(Step(s, es[0]), es[1..], t, next);
      Answers(s, es, t, now) == if a.Some? then [(now, a.value)] + rest else rest
    ensures Interrupts(es) == (if es[0].Interrupt? then 1 else 0) + Interrupts(es[1..])
  {
  }

  lemma UnsignalledStep(s: System, e: Event, t: Tid, k: nat, d: nat)
    requires Valid(s) && Enabled(s, e) && WaitsAt(s, t, k) && Pending(s.alarms, t, d) && !Aims(e, k)
    ensures Answer(s, e, t) == if e.Interrupt? && d == 0 then Some(false) else None
    ensures e.Interrupt? && d == 0 ==> Away(Step(s, e), t)
    ensures !(e.Interrupt? && d == 0) ==> WaitsAt(Step(s, e), t, k)
    ensures e.Interrupt? && d > 0 ==> Pending(Step(s, e).alarms, t, d - 1)
    ensures !e.Interrupt? ==> Pending(Step(s, e).alarms, t, d)
  {
    StepAlarm(s, e, t, k, d);
    StepWaiter(s, e, t, k);
    if Answer(s, e, t).Some? { UnsignalledAnswer(s, e, t, k); }
  }

  lemma UnsignalledAnswer(s: System, e: Event, t: Tid, k: nat)
    requires WaitsAt(s, t, k) && Answer(s, e, t).Some? && !Aims(e, k)
    ensures e.Interrupt? && Answer(s, e, t) == Some(false)
  {
    assert e.Signal? ==> Last(s.sems[e.k].queue).who in Names(s.sems[e.k].queue);
  }

  /** A wait with a limit that finds no event queues its caller with an alarm that many ticks away. */
  lemma WaitIsTimed(s: System, t: Tid, prio: nat, k: nat, n: nat)
    requires Valid(s) && Enabled(s, Wait(t, prio, k, Until(n))) && s.sems[k].value == 0
    ensures WaitsAt(Step(s, Wait(t, prio, k, Until(n))), t, k)
    ensures Pending(Step(s, Wait(t, prio, k, Until(n))).alarms, t, n)
  {
    InsertKeepsValid(s.sems[k].queue, Entry(t, prio, s.sems[k].clock), s.sems[k].clock);
    SetAlarmIsPending(s.alarms, t, n);
  }
}
