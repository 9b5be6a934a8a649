/**
 The order in which a mtask2 process queue keeps its waiters, as a value.

 A queue is written head first, exactly as the linked list is walked from `head`.  Insertion looks for
 the first waiter whose priority is not below the newcomer's, so the last waiter is the most urgent one
 and, among equals, the one that has waited longest.
 */
module WaitOrder {
  import opened Base

  /** One waiter: `stamp` is the moment it was queued, on a clock that advances at every queueing. */
  datatype Entry<T> = Entry(who: T, prio: nat, stamp: nat)

  /** `b` must be served before `a`. */
  predicate Yields<T>(a: Entry<T>, b: Entry<T>) {
    a.prio < b.prio || (a.prio == b.prio && a.stamp > b.stamp)
  }

  ghost predicate Ordered<T>(q: seq<Entry<T>>) {
    forall i, j :: 0 <= i < j < |q| ==> Yields(q[i], q[j])
  }

  /** Every stamp is in the past of `now`. */
  ghost predicate Past<T>(q: seq<Entry<T>>, now: nat) {
    forall i :: 0 <= i < |q| ==> q[i].stamp < now
  }

  /** The tasks in the queue. */
  ghost function Names<T>(q: seq<Entry<T>>): set<T> {
    set i | 0 <= i < |q| :: q[i].who
  }

  /** No task waits twice in the same queue. */
  ghost predicate OnceEach<T>(q: seq<Entry<T>>) {
    forall i, j :: 0 <= i < j < |q| ==> q[i].who != q[j].who
  }

  /** The queue invariant. */
  ghost predicate Valid<T>(q: seq<Entry<T>>, now: nat) {
    Ordered(q) && Past(q, now) && OnceEach(q)
  }

  /** Where the search loop of mt_enqueue stops. */
  function Place<T>(q: seq<Entry<T>>, prio: nat): (i: nat)
    ensures i <= |q|
    ensures forall k :: 0 <= k < i ==> q[k].prio < prio
    ensures i < |q| ==> prio <= q[i].prio
  {
    if q == [] || prio <= q[0].prio then 0 else
      var j := Place(q[1..], prio);
      assert forall k :: 0 < k < |q| ==> q[k] == q[1..][k-1];
      j + 1
  }

  function Insert<T>(q: seq<Entry<T>>, e: Entry<T>): (r: seq<Entry<T>>)
    ensures |r| == |q| + 1
  {
    var i := Place(q, e.prio);
    q[..i] + [e] + q[i..]
  }

  /** The queue without the waiter `t`; unchanged when `t` is not in it. */
  function Without<T(==)>(q: seq<Entry<T>>, t: T): (r: seq<Entry<T>>)
    ensures |r| <= |q|
  {
    if q == [] then []
    else if q[0].who == t then q[1..]
    else [q[0]] + Without(q[1..], t)
  }

  /** SetPriority: a waiter is taken out and queued anew. */
  function Requeue<T(==)>(q: seq<Entry<T>>, t: T, prio: nat, now: nat): seq<Entry<T>> {
    var r := Without(q, t);
    if r == q then q else Insert(r, Entry(t, prio, now))
  }

  function Front<T>(q: seq<Entry<T>>): seq<Entry<T>>
    requires q != []
  {
    q[..|q|-1]
  }

  function Last<T>(q: seq<Entry<T>>): Entry<T>
    requires q != []
  {
    q[|q|-1]
  }

  lemma InsertAt<T>(q: seq<Entry<T>>, e: Entry<T>, k: nat)
    requires k <= |q|
    ensures var i := Place(q, e.prio); Insert(q, e)[k] == if k < i then q[k] else if k == i then e else q[k-1]
  {
  }

  lemma InsertPair<T>(q: seq<Entry<T>>, e: Entry<T>, now: nat, a: nat, b: nat)
    requires Valid(q, now) && e.stamp == now && e.who !in Names(q) && a < b <= |q|
    ensures Insert(q, e)[a].who != Insert(q, e)[b].who && Yields(Insert(q, e)[a], Insert(q, e)[b])
  {
    var i := Place(q, e.prio);
    InsertAt(q, e, a);
    InsertAt(q, e, b);
    if a == i {
      assert q[b-1].who in Names(q);
      assert b - 1 > i ==> Yields(q[i], q[b-1]);
    } else if b == i {
      assert q[a].who in Names(q);
    }
  }

  lemma InsertKeepsValid<T>(q: seq<Entry<T>>, e: Entry<T>, now: nat)
    requires Valid(q, now) && e.stamp == now && e.who !in Names(q)
    ensures Valid(Insert(q, e), now + 1)
    ensures Names(Insert(q, e)) == Names(q) + {e.who}
  {
    var r := Insert(q, e);
    forall a, b | 0 <= a < b < |r| ensures r[a].who != r[b].who && Yields(r[a], r[b]) {
      InsertPair(q, e, now, a, b);
    }
    forall k | 0 <= k < |r| ensures r[k].stamp < now + 1 && r[k].who in Names(q) + {e.who} {
      InsertAt(q, e, k);
    }
    InsertNames(q, e);
  }

  lemma InsertNames<T>(q: seq<Entry<T>>, e: Entry<T>)
    ensures Names(Insert(q, e)) >= Names(q) + {e.who}
  {
    var i := Place(q, e.prio);
    InsertAt(q, e, i);
    forall k | 0 <= k < |q| ensures q[k].who in Names(Insert(q, e)) {
      InsertAt(q, e, if k < i then k else k + 1);
    }
  }

  /** Removing a waiter by position is removing it by name. */
  lemma {:induction false} WithoutAt<T>(q: seq<Entry<T>>, k: nat)
    requires k < |q| && OnceEach(q)
    ensures Without(q, q[k].who) == q[..k] + q[k+1..]
  {
    if k == 0 {
    } else {
      assert q[0].who != q[k].who;
      var p := q[1..];
      assert forall i :: 0 <= i < |p| ==> p[i] == q[i+1];
      WithoutAt(p, k - 1);
      assert [q[0]] + (p[..k-1] + p[k..]) == q[..k] + q[k+1..];
    }
  }

  lemma {:induction false} WithoutAbsent<T>(q: seq<Entry<T>>, t: T)
    requires t !in Names(q)
    ensures Without(q, t) == q
  {
    if q != [] {
      var p := q[1..];
      WithoutAbsent(p, t);
      assert q[0].who != t;
      assert q == [q[0]] + p;
    }
  }

  lemma CutKeepsValid<T>(q: seq<Entry<T>>, k: nat, now: nat)
    requires k < |q| && Valid(q, now)
    ensures Valid(q[..k] + q[k+1..], now)
    ensures Names(q[..k] + q[k+1..]) == Names(q) - {q[k].who}
  {
    var r := q[..k] + q[k+1..];
    assert forall i :: 0 <= i < |r| ==> r[i] == q[if i < k then i else i + 1];
    forall i | 0 <= i < |q| && i != k ensures q[i].who in Names(r) {
      assert r[if i < k then i else i - 1] == q[i];
    }
  }

  lemma WithoutKeepsValid<T>(q: seq<Entry<T>>, t: T, now: nat)
    requires Valid(q, now)
    ensures Valid(Without(q, t), now)
    ensures Names(Without(q, t)) == Names(q) - {t}
  {
    if t in Names(q) {
      var k :| 0 <= k < |q| && q[k].who == t;
      WithoutAt(q, k);
      CutKeepsValid(q, k, now);
    } else {
      WithoutAbsent(q, t);
    }
  }

  lemma RequeueKeepsValid<T>(q: seq<Entry<T>>, t: T, prio: nat, now: nat)
    requires Valid(q, now)
    ensures Valid(Requeue(q, t, prio, now), now + 1)
    ensures Names(Requeue(q, t, prio, now)) == Names(q)
  {
    WithoutKeepsValid(q, t, now);
    if t in Names(q) {
      InsertKeepsValid(Without(q, t), Entry(t, prio, now), now);
    } else {
      WithoutAbsent(q, t);
    }
  }

  lemma FrontKeepsValid<T>(q: seq<Entry<T>>, now: nat)
    requires q != [] && Valid(q, now)
    ensures Valid(Front(q), now)
    ensures Names(Front(q)) == Names(q) - {Last(q).who}
    ensures Without(q, Last(q).who) == Front(q)
  {
    assert Front(q) == q[..|q|-1] + q[|q|-1+1..];
    CutKeepsValid(q, |q| - 1, now);
    WithoutAt(q, |q| - 1);
  }

  /**
   What taking the last waiter means: nobody left behind is more urgent, and whoever is equally urgent
   arrived later.
   */
  lemma LastIsMostUrgent<T>(q: seq<Entry<T>>, e: Entry<T>)
    requires Ordered(q) && e in q && e != Last(q)
    ensures e.prio <= Last(q).prio
    ensures e.prio == Last(q).prio ==> Last(q).stamp < e.stamp
  {
    var i :| 0 <= i < |q| && q[i] == e;
    assert Yields(q[i], q[|q|-1]);
  }

  /** Waiters leave in order: a later arrival never overtakes a waiter of at least its own priority. */
  lemma NoOvertaking<T>(q: seq<Entry<T>>, e: Entry<T>, earlier: Entry<T>, now: nat)
    requires Valid(q, now) && e.stamp == now && earlier in q && e.prio <= earlier.prio
    ensures Last(Insert(q, e)) != e
    ensures Last(Insert(q, e)) == Last(q)
  {
    var k :| 0 <= k < |q| && q[k] == earlier;
    var i := Place(q, e.prio);
    assert i <= k;
  }

  // ----- whose priority counts -----

  /** Every waiter is queued with its own priority. */
  ghost predicate Priced<T(!new)>(q: seq<Entry<T>>, f: T -> nat) {
    forall e :: e in q ==> e.prio == f(e.who)
  }

  /** What an operation of `t` does to a queue: it may add `t`, with priority `p`, and nobody else. */
  ghost predicate Fed<T(!new)>(q: seq<Entry<T>>, q': seq<Entry<T>>, t: T, p: nat) {
    forall e :: e in q' ==> e in q || (e.who == t && e.prio == p)
  }

  lemma FedInsert<T(!new)>(q: seq<Entry<T>>, e: Entry<T>)
    ensures Fed(q, Insert(q, e), e.who, e.prio)
  {
    forall x | x in Insert(q, e) ensures x in q || x == e {
      var k :| 0 <= k < |q| + 1 && Insert(q, e)[k] == x;
      InsertAt(q, e, k);
    }
  }

  lemma {:induction false} FedWithout<T(!new)>(q: seq<Entry<T>>, u: T, t: T, p: nat)
    ensures Fed(q, Without(q, u), t, p)
  {
    if q != [] && q[0].who != u {
      FedWithout(q[1..], u, t, p);
    }
  }

  lemma FedFront<T(!new)>(q: seq<Entry<T>>, t: T, p: nat)
    requires q != []
    ensures Fed(q, Front(q), t, p)
  {
  }

  lemma FedTwice<T(!new)>(a: seq<Entry<T>>, b: seq<Entry<T>>, c: seq<Entry<T>>, t: T, p: nat)
    requires Fed(a, b, t, p) && Fed(b, c, t, p)
    ensures Fed(a, c, t, p)
  {
  }

  /** Only the task that acts changes, and the priority it acts with is its own before and after, if it is queued. */
  lemma PricedFed<T(!new)>(q: seq<Entry<T>>, q': seq<Entry<T>>, t: T, p: nat, f: T -> nat, f': T -> nat)
    requires Priced(q, f) && Fed(q, q', t, p) && forall u :: u != t && u in Names(q') ==> f'(u) == f(u)
    requires f(t) == p || t !in Names(q)
    requires f'(t) == p || t !in Names(q')
    ensures Priced(q', f')
  {
    forall e | e in q' ensures e.prio == f'(e.who) {
      var i :| 0 <= i < |q'| && q'[i] == e;
      assert e.who in Names(q');
      if e in q {
        var j :| 0 <= j < |q| && q[j] == e;
        assert e.who in Names(q);
      }
    }
  }

  /** A task queued anew is queued with its new priority, and the others as they were. */
  lemma PricedRequeue<T(!new)>(q: seq<Entry<T>>, t: T, prio: nat, now: nat, f: T -> nat, f': T -> nat)
    requires Valid(q, now) && Priced(q, f) && forall u :: u != t ==> f'(u) == f(u)
    requires f'(t) == prio || t !in Names(q)
    ensures Priced(Requeue(q, t, prio, now), f')
  {
    var r := Without(q, t);
    WithoutKeepsValid(q, t, now);
    FedWithout(q, t, t, prio);
    forall e | e in r ensures e.prio == f'(e.who) {
      var i :| 0 <= i < |r| && r[i] == e;
      assert e.who in Names(r);
    }
    if r == q {
      assert t !in Names(q);
    } else {
      if t !in Names(q) { WithoutAbsent(q, t); }
      FedInsert(r, Entry(t, prio, now));
    }
  }

  /** The waiter served has the highest priority of all that wait. */
  lemma ServedIsMostUrgent<T(!new)>(q: seq<Entry<T>>, now: nat, f: T -> nat, t: T)
    requires Valid(q, now) && Priced(q, f) && t in Names(q)
    ensures Last(q).who in Names(q) && f(t) <= f(Last(q).who)
  {
    var i :| 0 <= i < |q| && q[i].who == t;
    assert q[i] in q && Last(q) in q;
    if i < |q| - 1 {
      LastIsMostUrgent(q, q[i]);
    }
  }
}
