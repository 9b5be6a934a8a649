/**
 Chinux's accumulating-priority scheduler: every READY process gains its priority plus one at each call,
 the READY process with most accumulated points runs, and running resets its account.
 */
module AccumScheduler {
  import opened Base
  import SliceRecord

  datatype State = RUNNING | READY | BLOCKED

  /** A process as the scheduler sees it. */
  datatype Proc = Proc(pid: nat, priority: nat, acum: nat, state: State)

  /** `b` is preferred to `a` when it comes later in the list. */
  predicate LaterWins(a: Proc, b: Proc) {
    b.acum > a.acum || (b.acum == a.acum && b.priority >= a.priority)
  }

  /** The position the scan settles on. */
  function Best(ps: seq<Proc>): (w: Option<nat>)
    ensures w.Some? ==> w.value < |ps| && ps[w.value].state == READY
  {
    if ps == [] then None
    else
      var n := |ps| - 1;
      var w := Best(ps[..n]);
      if ps[n].state == READY && (w.None? || LaterWins(ps[w.value], ps[n])) then Some(n) else w
  }

  lemma BestGrows(ps: seq<Proc>, i: nat)
    requires i < |ps|
    ensures var w := Best(ps[..i]);
      Best(ps[..i+1]) == if ps[i].state == READY && (w.None? || LaterWins(ps[w.value], ps[i])) then Some(i) else w
  {
    assert ps[..i+1][..i] == ps[..i];
  }

  /** What one call does to the accounts. */
  function Charge(ps: seq<Proc>): (r: seq<Proc>)
    ensures |r| == |ps|
  {
    seq(|ps|, i requires 0 <= i < |ps| =>
      if Best(ps) == Some(i) then ps[i].(acum := 0)
      else if ps[i].state == READY then ps[i].(acum := ps[i].acum + ps[i].priority + 1)
      else ps[i])
  }

  /** One call of GetNextProcess: the accounts are charged and the choice runs. */
  function Dispatch(ps: seq<Proc>): (r: seq<Proc>)
    ensures |r| == |ps|
  {
    match Best(ps)
    case None => Charge(ps)
    case Some(w) => Charge(ps)[w := Charge(ps)[w].(state := RUNNING)]
  }

  /**
   The scan picks a READY process with the most points; among those one of highest priority, and among
   those the last in the list.  It picks nobody only when nobody is READY.
   */
  lemma {:induction false} BestIsBest(ps: seq<Proc>)
    ensures Best(ps).None? ==> forall i :: 0 <= i < |ps| ==> ps[i].state != READY
    ensures Best(ps).Some? ==> var w := Best(ps).value;
      forall i :: 0 <= i < |ps| && ps[i].state == READY ==>
        || ps[i].acum < ps[w].acum
        || (ps[i].acum == ps[w].acum && ps[i].priority < ps[w].priority)
        || (ps[i].acum == ps[w].acum && ps[i].priority == ps[w].priority && i <= w)
  {
    if ps != [] {
      var n := |ps| - 1;
      BestIsBest(ps[..n]);
      assert forall i :: 0 <= i < n ==> ps[i] == ps[..n][i];
    }
  }

  // ----- the scheduler itself -----

  class Process {
    var pid: nat
    const tty: nat
    var priority: nat
    var acum: nat
    var state: State

    ghost function Value(): Proc
      reads this
    {
      Proc(pid, priority, acum, state)
    }
  }

  ghost function View(ps: seq<Process>): (v: seq<Proc>)
    reads ps
    ensures |v| == |ps| && forall i :: 0 <= i < |v| ==> v[i] == ps[i].Value()
  {
    seq(|ps|, i requires 0 <= i < |ps| reads ps => ps[i].Value())
  }

  /** The first `i` processes have been charged for this call. */
  ghost predicate ChargedTo(ps: seq<Process>, was: seq<Proc>, i: nat)
    reads ps
  {
    |was| == |ps| && forall k {:trigger ps[k]} :: 0 <= k < |ps| ==> Account(ps[k], was[k], k < i)
  }

  /** The process is as before the call, but for the charge. */
  ghost predicate Account(p: Process, v: Proc, charged: bool)
    reads p
  {
    p.Value() == v.(acum := if charged && v.state == READY then v.acum + v.priority + 1 else v.acum)
  }

  lemma NotYetCharged(ps: seq<Process>, was: seq<Proc>)
    requires was == View(ps)
    ensures ChargedTo(ps, was, 0)
  {
    assert forall k {:trigger ps[k]} :: 0 <= k < |ps| ==> was[k] == ps[k].Value();
  }

  class Scheduler {
    var ready: seq<Process>
    const idle: Process
    var currentPid: nat
    /** The terminal shown, and the one of the running process. */
    var currentTTY: nat
    var currentProcessTTY: nat
    /** The pids of the last hundred slices, and where the next one goes. */
    var last100: seq<int>
    var counter100: nat

    ghost predicate Valid()
      reads this
    {
      Distinct(ready) && idle !in ready && SliceRecord.Valid(Slices())
    }

    ghost function Slices(): SliceRecord.Record
      reads this
    {
      SliceRecord.Record(last100, counter100)
    }

    constructor (idle: Process)
      ensures Valid() && ready == [] && this.idle == idle && currentPid == 0
    {
      this.idle := idle;
      ready, currentPid, last100, counter100 := [], 0, seq(100, i => 0), 0;
      currentTTY, currentProcessTTY := 0, 0;
    }

    /** The walk of GetNextTask over the list, charging as it goes. */
    method Walk(ghost was: seq<Proc>) returns (winner: Option<nat>)
      requires Valid() && was == View(ready)
      modifies ready`acum
      ensures winner == Best(was) && ChargedTo(ready, was, |ready|)
    {
      var maxAcum: nat, maxPriority: int := 0, -1;
      winner := None;
      NotYetCharged(ready, was);
      var i := 0;
      while i < |ready|
        invariant 0 <= i <= |ready| && ChargedTo(ready, was, i)
        invariant winner == Best(was[..i])
        invariant winner.None? ==> maxAcum == 0 && maxPriority == -1
        invariant winner.Some? ==> maxAcum == was[winner.value].acum && maxPriority == was[winner.value].priority
      {
        assert Account(ready[i], was[i], false);
        maxAcum, maxPriority, winner := Consider(ready[i], i, maxAcum, maxPriority, winner, was);
        ChargeOne(ready[i], i, was);
        i := i + 1;
      }
      assert was[..|ready|] == was;
    }

    /** A READY process with at least as many points, and as high a priority, is the new choice. */
    method Consider(p: Process, i: nat, maxAcum: nat, maxPriority: int, winner: Option<nat>, ghost was: seq<Proc>)
      returns (acum: nat, priority: int, w: Option<nat>)
      requires i < |was| && p.Value() == was[i] && winner == Best(was[..i])
      requires winner.None? ==> maxAcum == 0 && maxPriority == -1
      requires winner.Some? ==> maxAcum == was[winner.value].acum && maxPriority == was[winner.value].priority
      ensures w == Best(was[..i+1])
      ensures w.None? ==> acum == 0 && priority == -1
      ensures w.Some? ==> acum == was[w.value].acum && priority == was[w.value].priority
    {
      BestGrows(was, i);
      acum, priority, w := maxAcum, maxPriority, winner;
      if p.acum >= maxAcum && p.state == READY {
        if p.acum == maxAcum {
          if p.priority >= maxPriority {
            priority, w := p.priority, Some(i);
          }
        } else {
          priority, w, acum := p.priority, Some(i), p.acum;
        }
      }
    }

    /** A READY process gains its priority plus one. */
    method ChargeOne(p: Process, ghost i: nat, ghost was: seq<Proc>)
      requires Valid() && i < |ready| && p == ready[i] && ChargedTo(ready, was, i)
      modifies p`acum
      ensures ChargedTo(ready, was, i + 1)
    {
      assert Account(ready[i], was[i], false);
      if p.state == READY {
        p.acum := p.acum + p.priority + 1;
      }
      assert forall k {:trigger ready[k]} :: 0 <= k < |ready| && k != i ==>
        ready[k] != p && Account(ready[k], was[k], k < i);
    }

    /** GetNextTask */
    method GetNextTask() returns (proc: Process)
      requires Valid()
      modifies ready`acum
      ensures View(ready) == Charge(old(View(ready)))
      ensures proc == match old(Best(View(ready))) case Some(w) => ready[w] case None => idle
    {
      ghost var was := View(ready);
      var winner := Walk(was);
      if winner.None? {
        proc := idle;
      } else {
        proc := ready[winner.value];
        assert Account(proc, was[winner.value], true);
        proc.acum := 0;
      }
      assert forall k {:trigger ready[k]} :: 0 <= k < |ready| && ready[k] != proc ==> Account(ready[k], was[k], true);
      Charged(ready, was);
    }

    lemma Charged(ps: seq<Process>, was: seq<Proc>)
      requires |was| == |ps|
      requires forall k {:trigger ps[k]} :: 0 <= k < |ps| ==>
        if Best(was) == Some(k) then ps[k].Value() == was[k].(acum := 0) else Account(ps[k], was[k], true)
      ensures View(ps) == Charge(was)
    {
      forall k | 0 <= k < |ps| ensures View(ps)[k] == Charge(was)[k] {
        assert View(ps)[k] == ps[k].Value();
      }
    }

    /** GetNextProcess: the choice becomes the running process, with its terminal, or the one shown for idle. */
    method GetNextProcess() returns (proc: Process)
      requires Valid()
      modifies this`currentPid, this`currentProcessTTY, this`last100, this`counter100
      modifies ready`acum, ready`state, idle`state
      ensures Valid() && proc.state == RUNNING && currentPid == proc.pid
      ensures currentProcessTTY == if proc.pid == 0 then currentTTY else proc.tty
      ensures proc == match old(Best(View(ready))) case Some(w) => ready[w] case None => idle
      ensures View(ready) == Dispatch(old(View(ready)))
      ensures Slices() == SliceRecord.Noted(old(Slices()), currentPid)
    {
      proc := Choose();
      Record(proc);
    }

    method Choose() returns (proc: Process)
      requires Valid()
      modifies ready`acum, ready`state, idle`state
      ensures proc.state == RUNNING && View(ready) == Dispatch(old(View(ready)))
      ensures proc == match old(Best(View(ready))) case Some(w) => ready[w] case None => idle
    {
      ghost var was := View(ready);
      proc := GetNextTask();
      ghost var charged := View(ready);
      Run(proc, charged, Best(was));
    }

    method Record(proc: Process)
      requires Valid()
      modifies this`currentPid, this`currentProcessTTY, this`last100, this`counter100
      ensures Valid() && currentPid == proc.pid
      ensures currentProcessTTY == if proc.pid == 0 then currentTTY else proc.tty
      ensures Slices() == SliceRecord.Noted(old(Slices()), currentPid)
    {
      currentPid := proc.pid;
      if proc.pid == 0 {
        currentProcessTTY := currentTTY;
      } else {
        currentProcessTTY := proc.tty;
      }
      last100 := last100[counter100 := currentPid];
      counter100 := (counter100 + 1) % 100;
    }

    method Run(proc: Process, ghost v: seq<Proc>, ghost w: Option<nat>)
      requires Distinct(ready) && idle !in ready && v == View(ready)
      requires w.Some? ==> w.value < |ready| && proc == ready[w.value]
      requires w.None? ==> proc == idle
      modifies proc`state
      ensures proc.state == RUNNING
      ensures View(ready) == if w.None? then v else v[w.value := v[w.value].(state := RUNNING)]
    {
      assert forall i {:trigger ready[i]} :: 0 <= i < |ready| ==> v[i] == ready[i].Value();
      proc.state := RUNNING;
      assert forall i {:trigger ready[i]} :: 0 <= i < |ready| && ready[i] != proc ==> v[i] == ready[i].Value();
    }
  }

  // ----- bounded waiting -----

  ghost predicate Listed(ps: seq<Proc>, pid: nat) {
    exists i :: 0 <= i < |ps| && ps[i].pid == pid
  }

  /** At most `n` processes, each once, with priorities up to `top`. */
  ghost predicate Table(ps: seq<Proc>, n: nat, top: nat) {
    && |ps| <= n
    && (forall i :: 0 <= i < |ps| ==> ps[i].priority <= top)
    && (forall i, j :: 0 <= i < j < |ps| ==> ps[i].pid != ps[j].pid)
  }

  /**
   What may happen between two calls: processes end, block, wake or change priority as they like, and, when
   `newcomers` allows it, new ones appear with their priority plus one.  Nobody's account is touched.
   */
  ghost predicate Follows(after: seq<Proc>, next: seq<Proc>, newcomers: bool) {
    forall i :: 0 <= i < |next| ==>
      Keeps(after, next[i]) || (newcomers && !Listed(after, next[i].pid) && next[i].acum == next[i].priority + 1)
  }

  /** The process was in the list with the same account. */
  ghost predicate Keeps(after: seq<Proc>, p: Proc) {
    exists j :: 0 <= j < |after| && after[j].pid == p.pid && after[j].acum == p.acum
  }

  /** One call and what follows it up to the next. */
  ghost predicate Called(ps: seq<Proc>, next: seq<Proc>, n: nat, top: nat, newcomers: bool) {
    Table(ps, n, top) && Table(next, n, top) && Follows(Charge(ps), next, newcomers)
  }

  ghost predicate CalledAt(h: seq<seq<Proc>>, n: nat, top: nat, newcomers: bool, k: nat)
    requires k < |h|
  {
    if k + 1 < |h| then Called(h[k], h[k+1], n, top, newcomers) else Table(h[k], n, top)
  }

  /** The lists before each of a series of calls. */
  ghost predicate History(h: seq<seq<Proc>>, n: nat, top: nat, newcomers: bool) {
    forall k :: 0 <= k < |h| ==> CalledAt(h, n, top, newcomers, k)
  }

  /** READY with a priority of at least `p`. */
  ghost predicate IsReady(ps: seq<Proc>, pid: nat, p: nat) {
    exists i :: 0 <= i < |ps| && ps[i].pid == pid && ps[i].state == READY && ps[i].priority >= p
  }

  ghost predicate Chosen(ps: seq<Proc>, pid: nat) {
    Best(ps).Some? && ps[Best(ps).value].pid == pid
  }

  ghost predicate PassedOver(ps: seq<Proc>, pid: nat, p: nat) {
    IsReady(ps, pid, p) && !Chosen(ps, pid)
  }

  /** A call that passes a READY process over gives it its priority plus one. */
  lemma GainsItsPriority(ps: seq<Proc>, next: seq<Proc>, n: nat, top: nat, newcomers: bool, x: nat, j: nat, i: nat)
    requires Called(ps, next, n, top, newcomers) && !Chosen(ps, x)
    requires j < |ps| && ps[j].pid == x && ps[j].state == READY && i < |next| && next[i].pid == x
    ensures next[i].acum == ps[j].acum + ps[j].priority + 1
  {
    var after := Charge(ps);
    assert after[j].pid == x && after[j].acum == ps[j].acum + ps[j].priority + 1;
    assert Listed(after, x) && Keeps(after, next[i]);
    var m :| 0 <= m < |after| && after[m].pid == next[i].pid && after[m].acum == next[i].acum;
    assert ps[m].pid == x;
  }

  lemma GainsAtCall(h: seq<seq<Proc>>, n: nat, top: nat, newcomers: bool, x: nat, p: nat, k: nat, i: nat)
    returns (j: nat)
    requires History(h, n, top, newcomers) && 0 < k < |h| && i < |h[k]| && h[k][i].pid == x
    requires forall m :: 0 <= m < |h| ==> PassedOver(h[m], x, p)
    ensures j < |h[k-1]| && h[k-1][j].pid == x && h[k-1][j].priority >= p
    ensures h[k][i].acum == h[k-1][j].acum + h[k-1][j].priority + 1
  {
    assert PassedOver(h[k-1], x, p) && CalledAt(h, n, top, newcomers, k - 1);
    j := ReadyPlace(h[k-1], x, p);
    GainsItsPriority(h[k-1], h[k], n, top, newcomers, x, j, i);
  }

  /** What `k` calls that pass a process of priority `p` over are worth. */
  function Gain(k: nat, p: nat): nat {
    if k == 0 then 0 else Gain(k - 1, p) + p + 1
  }

  lemma {:induction false} GainIs(k: nat, p: nat)
    ensures Gain(k, p) == k * (p + 1)
  {
    if k > 0 {
      GainIs(k - 1, p);
      Distributes(k - 1, 1, p + 1);
    }
  }

  lemma {:induction false} GainsOverCalls(h: seq<seq<Proc>>, n: nat, top: nat, newcomers: bool, x: nat, p: nat, k: nat,
      i: nat, from: nat)
    requires History(h, n, top, newcomers) && k < |h| && i < |h[k]| && h[k][i].pid == x
    requires forall m :: 0 <= m < |h| ==> PassedOver(h[m], x, p)
    requires from < |h[0]| && h[0][from].pid == x
    ensures h[k][i].acum >= h[0][from].acum + Gain(k, p)
  {
    if k > 0 {
      var j := GainsAtCall(h, n, top, newcomers, x, p, k, i);
      GainsOverCalls(h, n, top, newcomers, x, p, k - 1, j, from);
    } else {
      AtFirst(h, n, top, newcomers, i, from);
    }
  }

  lemma {:induction false} SteadyGains(h: seq<seq<Proc>>, n: nat, top: nat, newcomers: bool, x: nat, p: nat, k: nat,
      i: nat, from: nat)
    requires History(h, n, top, newcomers) && k < |h| && i < |h[k]| && h[k][i].pid == x
    requires (forall m :: 0 <= m < |h| ==> PassedOver(h[m], x, p)) && Steady(h, x, p)
    requires from < |h[0]| && h[0][from].pid == x
    ensures h[k][i].acum == h[0][from].acum + Gain(k, p)
  {
    if k > 0 {
      var j := GainsAtCall(h, n, top, newcomers, x, p, k, i);
      SteadyGains(h, n, top, newcomers, x, p, k - 1, j, from);
    } else {
      AtFirst(h, n, top, newcomers, i, from);
    }
  }

  lemma AtFirst(h: seq<seq<Proc>>, n: nat, top: nat, newcomers: bool, i: nat, j: nat)
    requires |h| > 0 && History(h, n, top, newcomers) && i < |h[0]| && j < |h[0]| && h[0][i].pid == h[0][j].pid
    ensures i == j
  {
    assert CalledAt(h, n, top, newcomers, 0);
  }

  /** Its priority is `p` at every call. */
  ghost predicate Steady(h: seq<seq<Proc>>, x: nat, p: nat) {
    forall m, i :: 0 <= m < |h| && 0 <= i < |h[m]| && h[m][i].pid == x ==> h[m][i].priority == p
  }

  /**
   A READY process of priority at least `p` that is passed over `k` times gains at least k (p + 1) points, and exactly
   that while its priority is `p`.
   */
  lemma PassedOverGains(h: seq<seq<Proc>>, n: nat, top: nat, newcomers: bool, x: nat, p: nat, k: nat, i: nat, from: nat)
    requires History(h, n, top, newcomers) && k < |h| && i < |h[k]| && h[k][i].pid == x
    requires forall m :: 0 <= m < |h| ==> PassedOver(h[m], x, p)
    requires from < |h[0]| && h[0][from].pid == x
    ensures h[k][i].acum >= h[0][from].acum + k * (p + 1)
    ensures Steady(h, x, p) ==> h[k][i].acum == h[0][from].acum + k * (p + 1)
  {
    GainsOverCalls(h, n, top, newcomers, x, p, k, i, from);
    if Steady(h, x, p) { SteadyGains(h, n, top, newcomers, x, p, k, i, from); }
    GainIs(k, p);
  }

  lemma HasGained(h: seq<seq<Proc>>, n: nat, top: nat, newcomers: bool, x: nat, p: nat, k: nat, i: nat)
    requires History(h, n, top, newcomers) && k < |h| && i < |h[k]| && h[k][i].pid == x
    requires forall m :: 0 <= m < |h| ==> PassedOver(h[m], x, p)
    ensures h[k][i].acum >= k * (p + 1)
  {
    assert PassedOver(h[0], x, p);
    var from := ReadyPlace(h[0], x, p);
    PassedOverGains(h, n, top, newcomers, x, p, k, i, from);
  }

  lemma ReadyPlace(ps: seq<Proc>, x: nat, p: nat) returns (i: nat)
    requires IsReady(ps, x, p)
    ensures i < |ps| && ps[i].pid == x && ps[i].state == READY && ps[i].priority >= p
  {
    i :| 0 <= i < |ps| && ps[i].pid == x && ps[i].state == READY && ps[i].priority >= p;
  }

  ghost function Pids(ps: seq<Proc>): set<nat> {
    set i | 0 <= i < |ps| :: ps[i].pid
  }

  lemma {:induction false} PidCount(ps: seq<Proc>, x: nat)
    requires Listed(ps, x)
    ensures |Pids(ps) - {x}| <= |ps| - 1
  {
    PidsAtMost(ps);
    assert x in Pids(ps);
  }

  lemma {:induction false} PidsAtMost(ps: seq<Proc>)
    ensures |Pids(ps)| <= |ps|
  {
    if ps == [] {
      assert Pids(ps) == {};
    } else {
      var n := |ps| - 1;
      PidsAtMost(ps[..n]);
      assert Pids(ps) == Pids(ps[..n]) + {ps[n].pid};
    }
  }

  /** `r[c]` bounds the points of a process that was served, or appeared, less than `c` calls ago. */
  ghost predicate Bounds(r: seq<nat>, top: nat, newcomers: bool) {
    && (|r| > 1 && newcomers ==> r[1] >= top + 1)
    && forall c :: 1 < c < |r| ==> r[c] >= r[c-1] + top + 1
  }

  /** Everybody listed but `x` is in `e` or has few points. */
  ghost predicate Contenders(ps: seq<Proc>, x: nat, e: set<nat>, bound: nat, d: nat) {
    forall i :: 0 <= i < |ps| && ps[i].pid != x ==> ps[i].pid in e || (d > 0 && ps[i].acum <= bound)
  }

  /** What a call does to the contenders that are not its winner, and to everybody else. */
  lemma StaysAContender(ps: seq<Proc>, next: seq<Proc>, n: nat, top: nat, newcomers: bool, x: nat, e: set<nat>,
      bound: nat, d: nat, after: nat, j: nat)
    requires Called(ps, next, n, top, newcomers)
    requires Contenders(ps, x, e, bound, d) && j < |next| && next[j].pid != x && Best(ps).Some?
    requires if d == 0 then (newcomers ==> after >= top + 1) else after >= bound + top + 1
    ensures next[j].pid in e - {ps[Best(ps).value].pid} || next[j].acum <= after
  {
    var w := Best(ps).value;
    var charged := Charge(ps);
    if Keeps(charged, next[j]) {
      var m :| 0 <= m < |charged| && charged[m].pid == next[j].pid && charged[m].acum == next[j].acum;
      assert ps[m].pid == next[j].pid && ps[m].priority <= top;
      assert m != w ==> ps[m].pid != ps[w].pid;
    }
  }

  /** One call: the winner is a contender, and stops being one. */
  lemma OneFewer(ps: seq<Proc>, next: seq<Proc>, n: nat, top: nat, newcomers: bool, x: nat, e: set<nat>, bound: nat,
      d: nat, after: nat, i: nat)
    returns (e': set<nat>)
    requires Called(ps, next, n, top, newcomers)
    requires i < |ps| && ps[i].pid == x && ps[i].state == READY && !Chosen(ps, x)
    requires ps[i].acum > bound || d == 0
    requires Contenders(ps, x, e, bound, d)
    requires if d == 0 then (newcomers ==> after >= top + 1) else after >= bound + top + 1
    ensures Contenders(next, x, e', after, d + 1)
    ensures |e| > 0 && |e'| == |e| - 1
  {
    BestIsBest(ps);
    var v := ps[Best(ps).value].pid;
    assert v in e;
    e' := e - {v};
    forall j | 0 <= j < |next| && next[j].pid != x ensures next[j].pid in e' || next[j].acum <= after {
      StaysAContender(ps, next, n, top, newcomers, x, e, bound, d, after, j);
    }
  }

  /** One call of a history that passes `x` over. */
  lemma ContendersLeft(h: seq<seq<Proc>>, n: nat, top: nat, newcomers: bool, x: nat, p: nat, k: nat, e: set<nat>,
      bound: nat, d: nat, after: nat)
    returns (e': set<nat>)
    requires History(h, n, top, newcomers) && k + 1 < |h| && forall m :: 0 <= m < |h| ==> PassedOver(h[m], x, p)
    requires Contenders(h[k], x, e, bound, d) && (k * (p + 1) > bound || d == 0)
    requires if d == 0 then (newcomers ==> after >= top + 1) else after >= bound + top + 1
    ensures Contenders(h[k+1], x, e', after, d + 1) && |e| > 0 && |e'| == |e| - 1
  {
    assert PassedOver(h[k], x, p) && CalledAt(h, n, top, newcomers, k);
    var i := ReadyPlace(h[k], x, p);
    HasGained(h, n, top, newcomers, x, p, k, i);
    e' := OneFewer(h[k], h[k+1], n, top, newcomers, x, e, bound, d, after, i);
  }

  /** At first everybody else competes. */
  lemma AllContend(ps: seq<Proc>, n: nat, top: nat, x: nat, bound: nat) returns (e: set<nat>)
    requires Table(ps, n, top) && Listed(ps, x)
    ensures |e| <= n - 1 && Contenders(ps, x, e, bound, 0)
  {
    e := Pids(ps) - {x};
    PidCount(ps, x);
  }

  /** After `d` calls that pass `x` over, at most `n - 1 - d` processes can still compete with it. */
  lemma {:induction false} ContendersShrink(h: seq<seq<Proc>>, n: nat, top: nat, newcomers: bool, x: nat, p: nat,
      start: nat, r: seq<nat>, k: nat)
    returns (e: set<nat>)
    requires History(h, n, top, newcomers) && start <= k < |h| && k - start < |r| && Bounds(r, top, newcomers)
    requires forall m :: 0 <= m < |h| ==> PassedOver(h[m], x, p)
    requires forall c :: 0 < c < |r| ==> (start + c) * (p + 1) > r[c]
    ensures |e| + (k - start) <= n - 1
    ensures Contenders(h[k], x, e, r[k-start], k - start)
    decreases k
  {
    if k == start {
      assert PassedOver(h[k], x, p) && CalledAt(h, n, top, newcomers, k);
      e := AllContend(h[k], n, top, x, r[0]);
    } else {
      var e0 := ContendersShrink(h, n, top, newcomers, x, p, start, r, k - 1);
      var d := k - 1 - start;
      e := ContendersLeft(h, n, top, newcomers, x, p, k - 1, e0, r[d], d, r[d+1]);
    }
  }

  /** The heart of both bounds: `start` calls to get ahead, `n` more to be served. */
  lemma ServedWithin(h: seq<seq<Proc>>, n: nat, top: nat, newcomers: bool, x: nat, p: nat, start: nat, r: seq<nat>)
    requires n > 0 && |h| == start + n && History(h, n, top, newcomers)
    requires forall m :: 0 <= m < |h| ==> IsReady(h[m], x, p)
    requires |r| == n && Bounds(r, top, newcomers) && forall c :: 0 < c < n ==> (start + c) * (p + 1) > r[c]
    ensures exists k :: 0 <= k < |h| && Chosen(h[k], x)
  {
    if forall m :: 0 <= m < |h| ==> PassedOver(h[m], x, p) {
      var k := start + n - 1;
      var e := ContendersShrink(h, n, top, newcomers, x, p, start, r, k);
      assert PassedOver(h[k], x, p);
      var i := ReadyPlace(h[k], x, p);
      HasGained(h, n, top, newcomers, x, p, k, i);
      assert e == {};
      NobodyElse(h[k], x, i, r[n-1], n - 1);
    } else {
      var k :| 0 <= k < |h| && !PassedOver(h[k], x, p);
      assert Chosen(h[k], x);
    }
  }

  /** With no contender left the process itself is chosen. */
  lemma NobodyElse(ps: seq<Proc>, x: nat, i: nat, bound: nat, d: nat)
    requires Contenders(ps, x, {}, bound, d)
    requires i < |ps| && ps[i].pid == x && ps[i].state == READY && (ps[i].acum > bound || d == 0)
    ensures Chosen(ps, x)
  {
    BestIsBest(ps);
  }

  /** The bounds of a system where each call adds at most top + 1 points. */
  ghost function Recent(n: nat, top: nat, newcomers: bool): (r: seq<nat>)
    ensures |r| == n
    ensures forall c :: 0 < c < n ==> r[c] == (top + 1) * (c - 1) + (if newcomers then top + 1 else 0)
  {
    seq(n, c requires 0 <= c < n => if c == 0 then 0 else (top + 1) * (c - 1) + (if newcomers then top + 1 else 0))
  }

  lemma RecentBounds(n: nat, top: nat, newcomers: bool)
    ensures Bounds(Recent(n, top, newcomers), top, newcomers)
  {
    var r := Recent(n, top, newcomers);
    forall c | 1 < c < n ensures r[c] >= r[c-1] + top + 1 {
      assert (top + 1) * (c - 1) == (top + 1) * (c - 2) + (top + 1);
    }
  }

  lemma Rises(a: nat, b: nat, d: nat)
    requires a <= b
    ensures a * d <= b * d
  {
  }

  lemma Quotient(a: nat, d: nat)
    requires d > 0
    ensures (a / d + 1) * d > a
  {
  }

  lemma Splits(top: nat, p: nat, c: nat)
    requires p <= top
    ensures (top + 1) * c == (top - p) * c + c * (p + 1)
  {
  }

  lemma Distributes(a: nat, b: nat, d: nat)
    ensures (a + b) * d == a * d + b * d
  {
  }

  /** Calls after which a process of priority `p` is ahead of `m` others for good. */
  function Lead(m: nat, top: nat, p: nat): nat
    requires p <= top
  {
    (top - p) * m / (p + 1)
  }

  /** Whoever gains p + 1 points a call keeps ahead of those that gain at most top + 1. */
  lemma KeepsAhead(start: nat, top: nat, p: nat, c: nat, m: nat)
    requires p <= top && c <= m && start == Lead(m, top, p) + 1
    ensures (start + c) * (p + 1) > (top + 1) * c
  {
    Quotient((top - p) * m, p + 1);
    assert (top - p) * c <= (top - p) * m by { Rises(c, m, top - p); }
    Splits(top, p, c);
    Distributes(start, c, p + 1);
  }

  lemma OpenAhead(n: nat, top: nat, p: nat, c: nat)
    requires p <= top && 0 < c < n
    ensures (Lead(n - 1, top, p) + 1 + c) * (p + 1) > Recent(n, top, true)[c]
  {
    KeepsAhead(Lead(n - 1, top, p) + 1, top, p, c, n - 1);
    NextMultiple(top, c);
  }

  lemma NextMultiple(top: nat, c: nat)
    requires c > 0
    ensures (top + 1) * c == (top + 1) * (c - 1) + (top + 1)
  {
  }

  lemma ClosedAhead(n: nat, top: nat, p: nat, c: nat)
    requires p <= top && 0 < c < n
    ensures (Lead(n - 2, top, p) + c) * (p + 1) > Recent(n, top, false)[c]
  {
    KeepsAhead(Lead(n - 2, top, p) + 1, top, p, c - 1, n - 2);
  }

  /**
   Bounded waiting in an open system: with never more than `n` processes and priorities up to `top`, a process of
   priority at least `p` that is READY at every call is chosen within (top - p)(n - 1) / (p + 1) + n + 1 calls, however
   the others block, wake, end, change priority or are replaced by new ones.  The higher its priority, the sooner: of
   top priority it waits for n + 1 calls at most.
   */
  lemma OpenSystemBoundedWaiting(h: seq<seq<Proc>>, n: nat, top: nat, x: nat, p: nat)
    requires n > 0 && p <= top && |h| == (top - p) * (n - 1) / (p + 1) + n + 1 && History(h, n, top, true)
    requires forall m :: 0 <= m < |h| ==> IsReady(h[m], x, p)
    ensures exists k :: 0 <= k < |h| && Chosen(h[k], x)
  {
    var start := Lead(n - 1, top, p) + 1;
    var r := Recent(n, top, true);
    forall c | 0 < c < n ensures (start + c) * (p + 1) > r[c] {
      OpenAhead(n, top, p, c);
    }
    RecentBounds(n, top, true);
    ServedWithin(h, n, top, true, x, p, start, r);
  }

  /** With no newcomers and at least two processes, (top - p)(n - 2) / (p + 1) + n calls are enough. */
  lemma ClosedSystemBoundedWaiting(h: seq<seq<Proc>>, n: nat, top: nat, x: nat, p: nat)
    requires n >= 2 && p <= top && |h| == (top - p) * (n - 2) / (p + 1) + n && History(h, n, top, false)
    requires forall m :: 0 <= m < |h| ==> IsReady(h[m], x, p)
    ensures exists k :: 0 <= k < |h| && Chosen(h[k], x)
  {
    var start := Lead(n - 2, top, p);
    var r := Recent(n, top, false);
    forall c | 0 < c < n ensures (start + c) * (p + 1) > r[c] {
      ClosedAhead(n, top, p, c);
    }
    RecentBounds(n, top, false);
    ServedWithin(h, n, top, false, x, p, start, r);
  }
}
