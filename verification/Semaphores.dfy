/**
 mtask2's counting semaphore: a value and a queue of waiters, with direct hand-off.  A signal gives its
 event to the most urgent waiter and only counts it when nobody waits.
 */
module Semaphores {
  import opened Base
  import opened WaitOrder

  datatype Sem = Sem(value: nat, queue: seq<Entry<Tid>>, clock: nat)

  /** The queue is in serving order, and events are only stored while nobody waits. */
  ghost predicate ValidSem(s: Sem) {
    WaitOrder.Valid(s.queue, s.clock) && (s.value > 0 ==> s.queue == [])
  }

  /**
   Everything that can happen to a semaphore, each an interrupt-disabled stretch: `WaitSem` (with `cond`
   when the timeout is zero), `SignalSem`, the clock interrupt waking a waiter in vain, `FlushSem`, and a
   priority change that queues its task anew.
   */
  datatype Event =
    | WaitSem(t: Tid, prio: nat, cond: bool)
    | SignalSem
    | Expire(t: Tid)
    | FlushSem(ok: bool)
    | SetPriority(t: Tid, prio: nat)

  /** A blocked task does not call; only a waiter can time out. */
  ghost predicate Enabled(s: Sem, e: Event) {
    match e
    case WaitSem(t, _, _) => t !in Names(s.queue)
    case Expire(t) => t in Names(s.queue)
    case _ => true
  }

  function Enqueued(s: Sem, t: Tid, prio: nat): Sem {
    s.(queue := Insert(s.queue, Entry(t, prio, s.clock)), clock := s.clock + 1)
  }

  function Wait(s: Sem, t: Tid, prio: nat, cond: bool): Sem {
    if s.value > 0 then s.(value := s.value - 1)
    else if cond then s
    else Enqueued(s, t, prio)
  }

  function Signal(s: Sem): Sem {
    if s.queue == [] then s.(value := s.value + 1) else s.(queue := Front(s.queue))
  }

  function Do(s: Sem, e: Event): Sem {
    match e
    case WaitSem(t, prio, cond) => Wait(s, t, prio, cond)
    case SignalSem => Signal(s)
    case Expire(t) => s.(queue := Without(s.queue, t))
    case FlushSem(ok) => s.(value := 0, queue := [])
    case SetPriority(t, prio) => s.(queue := Requeue(s.queue, t, prio, s.clock), clock := s.clock + 1)
  }

  /** The waits that complete successfully at this event. */
  function Granted(s: Sem, e: Event): seq<Tid> {
    match e
    case WaitSem(t, _, _) => if s.value > 0 then [t] else []
    case SignalSem => if s.queue == [] then [] else [Last(s.queue).who]
    case FlushSem(ok) => if ok then Waiters(s.queue) else []
    case _ => []
  }

  function Waiters(q: seq<Entry<Tid>>): (r: seq<Tid>)
    ensures |r| == |q|
  {
    seq(|q|, i requires 0 <= i < |q| => q[i].who)
  }

  lemma StepKeepsValid(s: Sem, e: Event)
    requires ValidSem(s) && Enabled(s, e)
    ensures ValidSem(Do(s, e))
  {
    match e
    case WaitSem(t, prio, cond) =>
      if s.value == 0 && !cond { InsertKeepsValid(s.queue, Entry(t, prio, s.clock), s.clock); }
    case SignalSem => if s.queue != [] { FrontKeepsValid(s.queue, s.clock); }
    case Expire(t) => WithoutKeepsValid(s.queue, t, s.clock);
    case FlushSem(_) =>
    case SetPriority(t, prio) => RequeueKeepsValid(s.queue, t, prio, s.clock);
  }

  /** A wait is granted when an event is stored; without one it is refused at once or queued, with its priority. */
  lemma WaitOutcome(s: Sem, t: Tid, prio: nat, cond: bool)
    requires ValidSem(s) && t !in Names(s.queue)
    ensures var s' := Do(s, WaitSem(t, prio, cond));
      && (t in Granted(s, WaitSem(t, prio, cond)) <==> s.value > 0)
      && (s.value > 0 ==> s' == s.(value := s.value - 1))
      && (s.value == 0 && cond ==> s' == s)
      && (s.value == 0 && !cond ==> Names(s'.queue) == Names(s.queue) + {t})
      && (s.value == 0 && !cond ==> exists i :: IsEntry(s'.queue, i, t, prio))
  {
    if s.value == 0 && !cond {
      var e := Entry(t, prio, s.clock);
      InsertKeepsValid(s.queue, e, s.clock);
      InsertAt(s.queue, e, Place(s.queue, prio));
      assert IsEntry(Insert(s.queue, e), Place(s.queue, prio), t, prio);
    }
  }

  ghost predicate IsEntry(q: seq<Entry<Tid>>, i: nat, t: Tid, prio: nat) {
    i < |q| && q[i].who == t && q[i].prio == prio
  }

  // ----- whole runs -----

  ghost predicate Possible(s: Sem, es: seq<Event>)
    decreases es
  {
    es == [] || (Enabled(s, es[0]) && Possible(Do(s, es[0]), es[1..]))
  }

  function Run(s: Sem, es: seq<Event>): Sem
    decreases es
  {
    if es == [] then s else Run(Do(s, es[0]), es[1..])
  }

  /** All the waits the run completes successfully, in order. */
  function Grants(s: Sem, es: seq<Event>): seq<Tid>
    decreases es
  {
    if es == [] then [] else Granted(s, es[0]) + Grants(Do(s, es[0]), es[1..])
  }

  function Signals(es: seq<Event>): nat {
    if es == [] then 0 else (if es[0].SignalSem? then 1 else 0) + Signals(es[1..])
  }

  /** Waits that a successful flush completed, minus the stored events that flushes threw away. */
  function FlushBalance(s: Sem, es: seq<Event>): int
    decreases es
  {
    if es == [] then 0
    else (if es[0].FlushSem? then |Granted(s, es[0])| - s.value else 0) + FlushBalance(Do(s, es[0]), es[1..])
  }

  ghost predicate NoFlush(es: seq<Event>) {
    forall i :: 0 <= i < |es| ==> !es[i].FlushSem?
  }

  /** In every reachable state stored events and waiters exclude each other and the queue is in order. */
  lemma {:induction false} RunKeepsValid(s: Sem, es: seq<Event>)
    requires ValidSem(s) && Possible(s, es)
    ensures ValidSem(Run(s, es))
    decreases es
  {
    if es != [] {
      StepKeepsValid(s, es[0]);
      RunKeepsValid(Do(s, es[0]), es[1..]);
    }
  }

  /** Conservation: every event that came in was granted to somebody or is still stored. */
  lemma {:induction false} EventsAreConserved(s: Sem, es: seq<Event>)
    requires ValidSem(s) && Possible(s, es)
    ensures s.value + Signals(es) + FlushBalance(s, es) == Run(s, es).value + |Grants(s, es)|
    ensures NoFlush(es) ==> s.value + Signals(es) == Run(s, es).value + |Grants(s, es)|
    decreases es
  {
    if es != [] {
      StepKeepsValid(s, es[0]);
      var s' := Do(s, es[0]);
      EventsAreConserved(s', es[1..]);
      assert s.value + (if es[0].SignalSem? then 1 else 0)
           + (if es[0].FlushSem? then |Granted(s, es[0])| - s.value else 0) == s'.value + |Granted(s, es[0])|;
      if NoFlush(es) {
        assert !es[0].FlushSem?;
        assert NoFlush(es[1..]);
      }
    }
  }

  /** In any run, a signal that finds waiters serves one of highest priority, the oldest among those. */
  lemma SignalServesMostUrgent(s: Sem, es: seq<Event>, e: Entry<Tid>)
    requires ValidSem(s) && Possible(s, es) && e in Run(s, es).queue
    ensures var q := Run(s, es).queue;
      && Granted(Run(s, es), SignalSem) == [Last(q).who]
      && (e == Last(q) || e.prio < Last(q).prio || (e.prio == Last(q).prio && Last(q).stamp < e.stamp))
  {
    RunKeepsValid(s, es);
    var q := Run(s, es).queue;
    if e != Last(q) {
      LastIsMostUrgent(q, e);
    }
  }

  /** The priority a task called with last, as it has been set since. */
  function PrioNow(e: Event, t: Tid, p: nat): nat {
    match e
    case WaitSem(u, prio, _) => if u == t then prio else p
    case SetPriority(u, prio) => if u == t then prio else p
    case _ => p
  }

  function PrioAfter(es: seq<Event>, t: Tid, p: nat): nat
    decreases es
  {
    if es == [] then p else PrioAfter(es[1..], t, PrioNow(es[0], t, p))
  }

  ghost function PricesNow(e: Event, f: Tid -> nat): Tid -> nat { (t: Tid) => PrioNow(e, t, f(t)) }

  lemma StepKeepsPrices(s: Sem, e: Event, f: Tid -> nat)
    requires ValidSem(s) && Enabled(s, e) && Priced(s.queue, f)
    ensures Priced(Do(s, e).queue, PricesNow(e, f))
  {
    var f' := PricesNow(e, f);
    match e
    case WaitSem(t, prio, cond) =>
      FedInsert(s.queue, Entry(t, prio, s.clock));
      PricedFed(s.queue, Do(s, e).queue, t, prio, f, f');
    case SignalSem =>
      if s.queue != [] { FedFront(s.queue, 0, f(0)); }
      PricedFed(s.queue, Do(s, e).queue, 0, f(0), f, f');
    case Expire(t) =>
      FedWithout(s.queue, t, t, f(t));
      PricedFed(s.queue, Do(s, e).queue, t, f(t), f, f');
    case FlushSem(_) =>
    case SetPriority(t, prio) => PricedRequeue(s.queue, t, prio, s.clock, f, f');
  }

  /** Over every run each waiter is queued with the priority it called with, or was given since. */
  lemma {:induction false} WaitersKeepTheirPriority(s: Sem, es: seq<Event>, f: Tid -> nat, e: Entry<Tid>)
    requires ValidSem(s) && Possible(s, es) && Priced(s.queue, f) && e in Run(s, es).queue
    ensures e.prio == PrioAfter(es, e.who, f(e.who))
    decreases es
  {
    if es != [] {
      StepKeepsValid(s, es[0]);
      StepKeepsPrices(s, es[0], f);
      WaitersKeepTheirPriority(Do(s, es[0]), es[1..], PricesNow(es[0], f), e);
    }
  }

  // ----- bounded waiting -----

  /** `t` waits with priority `p` and exactly `n` waiters are served before it. */
  ghost predicate Behind(q: seq<Entry<Tid>>, t: Tid, p: nat, n: nat) {
    n < |q| && q[|q|-1-n].who == t && q[|q|-1-n].prio == p
  }

  /** Nobody more urgent than `p` comes, and nothing but a signal touches `t` itself. */
  ghost predicate Undisturbed(es: seq<Event>, t: Tid, p: nat) {
    forall i :: 0 <= i < |es| ==>
      match es[i]
      case WaitSem(u, prio, _) => prio <= p
      case SetPriority(u, prio) => u != t && prio <= p
      case Expire(u) => u != t
      case FlushSem(_) => false
      case SignalSem => true
  }

  lemma InsertStaysBehind(q: seq<Entry<Tid>>, e: Entry<Tid>, now: nat, t: Tid, p: nat, n: nat)
    requires Behind(q, t, p, n) && e.prio <= p && WaitOrder.Valid(q, now)
    ensures Behind(Insert(q, e), t, p, n)
  {
    var k := |q| - 1 - n;
    assert Place(q, e.prio) <= k;
    assert Insert(q, e)[k+1] == q[k];
  }

  lemma CutStaysBehind(q: seq<Entry<Tid>>, j: nat, t: Tid, p: nat, n: nat)
    requires Behind(q, t, p, n) && j < |q| && q[j].who != t
    ensures var m := if j > |q| - 1 - n then n - 1 else n; m >= 0 && Behind(q[..j] + q[j+1..], t, p, m)
  {
    var r, k := q[..j] + q[j+1..], |q| - 1 - n;
    assert r[if j > k then k else k - 1] == q[k];
  }

  lemma WithoutStaysBehind(q: seq<Entry<Tid>>, u: Tid, now: nat, t: Tid, p: nat, n: nat) returns (m: nat)
    requires Behind(q, t, p, n) && u != t && WaitOrder.Valid(q, now)
    ensures m <= n && Behind(Without(q, u), t, p, m)
  {
    m := n;
    if u in Names(q) {
      var j :| 0 <= j < |q| && q[j].who == u;
      WithoutAt(q, j);
      CutStaysBehind(q, j, t, p, n);
      if j > |q| - 1 - n { m := n - 1; }
    } else {
      WithoutAbsent(q, u);
    }
  }

  /**
   No starvation among equals: a waiter with `n` others ahead of it is granted by signal number `n + 1`
   at the latest, however many tasks of no higher priority arrive meanwhile.
   */
  lemma {:induction false} WaiterIsServed(s: Sem, es: seq<Event>, t: Tid, p: nat, n: nat)
    requires ValidSem(s) && Possible(s, es) && Behind(s.queue, t, p, n) && Undisturbed(es, t, p)
    requires Signals(es) > n
    ensures t in Grants(s, es)
    decreases es
  {
    StepKeepsValid(s, es[0]);
    var s' := Do(s, es[0]);
    var rest := es[1..];
    assert Undisturbed(rest, t, p) by {
      assert forall i :: 0 <= i < |rest| ==> rest[i] == es[i+1];
    }
    match es[0]
    case SignalSem =>
      if n > 0 {
        assert Behind(s'.queue, t, p, n - 1);
        WaiterIsServed(s', rest, t, p, n - 1);
      }
    case WaitSem(u, prio, cond) =>
      if s'.queue != s.queue { InsertStaysBehind(s.queue, Entry(u, prio, s.clock), s.clock, t, p, n); }
      WaiterIsServed(s', rest, t, p, n);
    case Expire(u) =>
      var m := WithoutStaysBehind(s.queue, u, s.clock, t, p, n);
      WaiterIsServed(s', rest, t, p, m);
    case SetPriority(u, prio) =>
      var m := WithoutStaysBehind(s.queue, u, s.clock, t, p, n);
      if s'.queue == s.queue {
        WaiterIsServed(s', rest, t, p, n);
      } else {
        WithoutKeepsValid(s.queue, u, s.clock);
        InsertStaysBehind(Without(s.queue, u), Entry(u, prio, s.clock), s.clock, t, p, m);
        WaiterIsServed(s', rest, t, p, m);
      }
  }

  // ----- the semaphore object -----

  datatype Outcome = Success | Failure | Blocked

  /** The C structure; the waiters are held as the queue lists them. */
  class Semaphore {
    var value: nat
    var queue: seq<Entry<Tid>>
    /** Arrivals so far: the model's record of who came first, which the C code keeps by position alone. */
    var clock: nat

    ghost function State(): Sem
      reads this
    {
      Sem(value, queue, clock)
    }

    constructor (value: nat)
      ensures State() == Sem(value, [], 0) && ValidSem(State())
    {
      this.value, queue, clock := value, [], 0;
    }

    /** WaitSemTimed up to the point where the caller returns or gives up the CPU. */
    method WaitSemTimed(t: Tid, prio: nat, msecs: nat) returns (r: Outcome)
      requires ValidSem(State()) && t !in Names(queue)
      modifies this
      ensures State() == Do(old(State()), WaitSem(t, prio, msecs == 0)) && ValidSem(State())
      ensures r == Success <==> Granted(old(State()), WaitSem(t, prio, msecs == 0)) == [t]
      ensures r == Blocked <==> t in Names(queue)
    {
      StepKeepsValid(State(), WaitSem(t, prio, msecs == 0));
      if value > 0 {
        value := value - 1;
        r := Success;
      } else if msecs == 0 {
        r := Failure;
      } else {
        InsertKeepsValid(queue, Entry(t, prio, clock), clock);
        queue := Insert(queue, Entry(t, prio, clock));
        clock := clock + 1;
        r := Blocked;
      }
    }

    /** SignalSem: whom it woke, if anybody. */
    method SignalSem() returns (woken: Option<Tid>)
      requires ValidSem(State())
      modifies this
      ensures State() == Do(old(State()), Event.SignalSem) && ValidSem(State())
      ensures Granted(old(State()), Event.SignalSem) == if woken.Some? then [woken.value] else []
    {
      StepKeepsValid(State(), Event.SignalSem);
      if queue != [] {
        woken := Some(queue[|queue|-1].who);
        queue := queue[..|queue|-1];
      } else {
        value := value + 1;
        woken := None;
      }
    }

    /** FlushSem: the waiters woken, most urgent first. */
    method FlushSem(ok: bool) returns (woken: seq<Tid>)
      requires ValidSem(State())
      modifies this
      ensures State() == Do(old(State()), Event.FlushSem(ok)) && ValidSem(State())
      ensures |woken| == |old(queue)|
      ensures forall i :: 0 <= i < |woken| ==> woken[i] == old(queue)[|woken|-1-i].who
    {
      value := 0;
      woken := [];
      ghost var was := queue;
      while queue != []
        invariant |queue| + |woken| == |was| && queue == was[..|queue|]
        invariant forall i :: 0 <= i < |woken| ==> woken[i] == was[|was|-1-i].who
        invariant value == 0 && clock == old(clock)
        decreases |queue|
      {
        woken := woken + [queue[|queue|-1].who];
        queue := queue[..|queue|-1];
      }
    }
  }
}
