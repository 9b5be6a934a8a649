/**
 Chinux's round-robin scheduler: a walk over the process list, at most twice, that starts after the process
 that ran last.
 */
module RoundRobin {
  import opened Base

  datatype Proc = Proc(pid: nat, ready: bool)

  function PlaceOf(ps: seq<Proc>, pid: nat): (c: Option<nat>)
    ensures c.Some? ==> c.value < |ps| && ps[c.value].pid == pid && forall i :: 0 <= i < c.value ==> ps[i].pid != pid
    ensures c.None? ==> forall i :: 0 <= i < |ps| ==> ps[i].pid != pid
  {
    if ps == [] then None
    else
      var c := PlaceOf(ps[..|ps|-1], pid);
      if c.None? && ps[|ps|-1].pid == pid then Some(|ps| - 1) else c
  }

  /** How far place `i` comes after place `c` in cyclic order; `c` itself comes last. */
  function Turn(n: nat, c: nat, i: nat): int
    requires c < n && i < n
  {
    if c < i then i - c - 1 else n + i - c - 1
  }

  /** What one call must return when `current` ran last; none stands for idle. */
  ghost predicate IsNext(ps: seq<Proc>, current: nat, next: Option<nat>) {
    && (next.Some? ==> next.value < |ps| && ps[next.value].ready)
    && if current == 0 then
         if next.None? then forall i :: 0 <= i < |ps| ==> !ps[i].ready
         else forall i :: 0 <= i < next.value ==> !ps[i].ready
       else if PlaceOf(ps, current).Some? then
         var c := PlaceOf(ps, current).value;
         if next.None? then forall i :: 0 <= i < |ps| ==> !ps[i].ready
         else forall i :: 0 <= i < |ps| && ps[i].ready ==> Turn(|ps|, c, next.value) <= Turn(|ps|, c, i)
       else
         next == if ps != [] && ps[0].ready then Some(0) else None
  }

  /** The result is determined. */
  lemma {:induction false} NextIsUnique(ps: seq<Proc>, current: nat, a: Option<nat>, b: Option<nat>)
    requires IsNext(ps, current, a) && IsNext(ps, current, b)
    ensures a == b
  {
    if a.Some? && b.Some? && current != 0 && PlaceOf(ps, current).Some? {
      var c := PlaceOf(ps, current).value;
      assert Turn(|ps|, c, a.value) == Turn(|ps|, c, b.value);
    }
  }

  class Process {
    var pid: nat
    var ready: bool
  }

  ghost function View(ps: seq<Process>): (v: seq<Proc>)
    reads ps
    ensures |v| == |ps| && forall i :: 0 <= i < |v| ==> v[i] == Proc(ps[i].pid, ps[i].ready)
  {
    seq(|ps|, i requires 0 <= i < |ps| reads ps => Proc(ps[i].pid, ps[i].ready))
  }

  /** GetNextTask: `at` is the place of the walk, at the end when it is |ready|. */
  method GetNextTask(ready: seq<Process>, currentPid: nat) returns (next: Option<nat>)
    ensures IsNext(View(ready), currentPid, next)
  {
    if ready == [] { return None; }
    ghost var ps := View(ready);
    var n, at := |ready|, 0;
    if currentPid == 0 {
      while at < n
        invariant 0 <= at <= n
        invariant forall i :: 0 <= i < at ==> !ps[i].ready
      {
        if ready[at].ready { return Some(at); }
        at := at + 1;
      }
      return None;
    }
    var flag, beginning := false, false;
    ghost var c := PlaceOf(ps, currentPid);
    while at < n
      invariant 0 <= at <= n
      invariant flag ==> c.Some? && (beginning || c.value < at)
      invariant c.Some? && c.value < at ==> flag
      invariant c.Some? && beginning ==> flag
      invariant flag && !beginning ==> at < n && forall i :: c.value < i <= at ==> !ps[i].ready
      invariant beginning ==> !ps[0].ready
      invariant flag && beginning ==> forall i :: c.value < i < n || 0 <= i <= at < n ==> !ps[i].ready
      invariant at == n ==> beginning && (flag ==> forall i :: 0 <= i < n ==> !ps[i].ready)
      decreases !beginning, n - at
    {
      assert ps[at] == Proc(ready[at].pid, ready[at].ready);
      if ready[at].pid == currentPid { flag := true; }
      at := at + 1;
      if flag && at < n && ready[at].ready { return Some(at); }
      if at == n && !beginning {
        beginning, at := true, 0;
        if ready[at].ready { return Some(at); }
      }
    }
    return None;
  }

  // ----- bounded waiting -----

  /** Every process of the list has its own pid, and none has the pid of idle. */
  ghost predicate OwnPids(ps: seq<Proc>) {
    && (forall i :: 0 <= i < |ps| ==> ps[i].pid > 0)
    && (forall i, j :: 0 <= i < j < |ps| ==> ps[i].pid != ps[j].pid)
  }

  /** The same processes in the same order, in whatever states. */
  ghost predicate SamePids(a: seq<Proc>, b: seq<Proc>) {
    |a| == |b| && forall i :: 0 <= i < |a| ==> b[i].pid == a[i].pid
  }

  ghost predicate SameList(h: seq<seq<Proc>>) {
    |h| > 0 && OwnPids(h[0]) && forall k {:trigger SamePids(h[0], h[k])} :: 0 <= k < |h| ==> SamePids(h[0], h[k])
  }

  /** A series of calls: `got[k]` is the answer of call `k`, and the process it chose ran last at call `k + 1`. */
  ghost predicate IsRun(h: seq<seq<Proc>>, first: nat, got: seq<Option<nat>>) {
    && SameList(h) && |got| == |h|
    && forall k :: 0 <= k < |h| ==> CalledAt(h, first, got, k)
  }

  ghost predicate CalledAt(h: seq<seq<Proc>>, first: nat, got: seq<Option<nat>>, k: nat)
    requires |got| == |h| && k < |h|
  {
    IsNext(h[k], RanLast(h, first, got, k), got[k])
  }

  ghost function RanLast(h: seq<seq<Proc>>, first: nat, got: seq<Option<nat>>, k: nat): nat
    requires |got| == |h| && k < |h|
  {
    if k == 0 then first
    else match got[k-1]
      case None => 0
      case Some(w) => if w < |h[k-1]| then h[k-1][w].pid else 0
  }

  /** A pid of the list is found at its own place. */
  lemma PlaceOfListed(ps: seq<Proc>, i: nat)
    requires i < |ps| && OwnPids(ps)
    ensures PlaceOf(ps, ps[i].pid) == Some(i)
  {
  }

  /** A call that passes over the READY process `x` chooses one whose turn is nearer to that of `x`. */
  lemma OneCallNearer(ps: seq<Proc>, c: nat, next: Option<nat>, x: nat)
    requires OwnPids(ps) && c < |ps| && x < |ps| && ps[x].ready
    requires IsNext(ps, ps[c].pid, next) && next != Some(x)
    ensures next.Some? && next.value < |ps| && Turn(|ps|, next.value, x) < Turn(|ps|, c, x)
  {
    PlaceOfListed(ps, c);
  }

  /** Once a process of the list runs, each call that passes over the READY process `x` brings its turn nearer. */
  lemma {:induction false} TurnComesNearer(h: seq<seq<Proc>>, first: nat, got: seq<Option<nat>>, x: nat, from: nat,
      k: nat)
    requires IsRun(h, first, got) && x < |h[0]| && from <= k < |h|
    requires forall m :: 0 <= m < |h| ==> PassedOver(h, got, x, m)
    requires got[from].Some? && got[from].value < |h[0]|
    ensures got[k].Some? && got[k].value < |h[0]|
    ensures Turn(|h[0]|, got[k].value, x) + (k - from) <= Turn(|h[0]|, got[from].value, x)
  {
    if k > from {
      TurnComesNearer(h, first, got, x, from, k - 1);
      assert CalledAt(h, first, got, k) && PassedOver(h, got, x, k);
      assert SamePids(h[0], h[k-1]) && SamePids(h[0], h[k]);
      SamePidsOwnPids(h[0], h[k]);
      OneCallNearer(h[k], got[k-1].value, got[k], x);
    }
  }

  lemma SamePidsOwnPids(a: seq<Proc>, b: seq<Proc>)
    requires OwnPids(a) && SamePids(a, b)
    ensures OwnPids(b)
  {
  }

  ghost predicate PassedOver(h: seq<seq<Proc>>, got: seq<Option<nat>>, x: nat, m: nat)
    requires |got| == |h| && m < |h|
  {
    ReadyAt(h[m], x) && got[m] != Some(x)
  }

  ghost predicate ReadyAt(ps: seq<Proc>, x: nat) {
    x < |ps| && ps[x].ready
  }

  /** Idle is chosen before a READY process only when the one that ran last is gone from the list. */
  lemma FirstCall(ps: seq<Proc>, first: nat, next: Option<nat>, x: nat)
    requires IsNext(ps, first, next) && ReadyAt(ps, x)
    ensures next.None? <==> first != 0 && PlaceOf(ps, first).None? && !ps[0].ready
    ensures next.Some? ==> next.value < |ps|
  {
  }

  /** An input for which idle is chosen although a process is READY. */
  lemma IdleBeforeReady(ps: seq<Proc>, next: Option<nat>)
    requires ps == [Proc(1, false), Proc(2, true)] && IsNext(ps, 3, next)
    ensures next == None
  {
    assert PlaceOf(ps, 3).None?;
  }

  /**
   Over a fixed list of `n` processes, one that is READY at every call is chosen within `n` calls, provided that
   the process that ran before the first call is idle or is in the list; otherwise within `n + 1`.
   */
  lemma {:induction false} BoundedWaiting(h: seq<seq<Proc>>, first: nat, got: seq<Option<nat>>, x: nat)
    requires IsRun(h, first, got) && x < |h[0]|
    requires |h| == |h[0]| + (if first == 0 || PlaceOf(h[0], first).Some? then 0 else 1)
    requires forall m :: 0 <= m < |h| ==> ReadyAt(h[m], x)
    ensures exists k :: 0 <= k < |h| && got[k] == Some(x)
  {
    if forall m :: 0 <= m < |h| ==> PassedOver(h, got, x, m) {
      assert ReadyAt(h[0], x) && CalledAt(h, first, got, 0);
      FirstCall(h[0], first, got[0], x);
      if got[0].Some? {
        TurnComesNearer(h, first, got, x, 0, |h| - 1);
      } else {
        assert RanLast(h, first, got, 1) == 0 && ReadyAt(h[1], x) && CalledAt(h, first, got, 1);
        assert SamePids(h[0], h[1]);
        FirstCall(h[1], 0, got[1], x);
        TurnComesNearer(h, first, got, x, 1, |h| - 1);
      }
    } else {
      var m :| 0 <= m < |h| && !PassedOver(h, got, x, m);
      assert ReadyAt(h[m], x);
    }
  }

  /** A READY neighbour is next. */
  lemma NextNeighbour(ps: seq<Proc>, c: nat, next: Option<nat>)
    requires OwnPids(ps) && c + 1 < |ps| && ps[c+1].ready && IsNext(ps, ps[c].pid, next)
    ensures next == Some(c + 1)
  {
    PlaceOfListed(ps, c);
  }

  /** The bound is met exactly: when everybody is READY, `n` calls serve each process once, in list order. */
  lemma {:induction false} TakesTurns(h: seq<seq<Proc>>, got: seq<Option<nat>>, k: nat)
    requires IsRun(h, 0, got) && k < |h| && k < |h[0]|
    requires forall m, i :: 0 <= m < |h| && 0 <= i < |h[0]| ==> ReadyAt(h[m], i)
    ensures got[k] == Some(k)
  {
    assert SamePids(h[0], h[k]) && ReadyAt(h[k], k) && ReadyAt(h[k], 0) && CalledAt(h, 0, got, k);
    if k > 0 {
      TakesTurns(h, got, k - 1);
      SamePidsOwnPids(h[0], h[k]);
      assert SamePids(h[0], h[k-1]);
      NextNeighbour(h[k], k - 1, got[k]);
    }
  }
}
