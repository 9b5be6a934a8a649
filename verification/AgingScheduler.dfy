/**
 tpesoGuia's aging scheduler: a table of slots, where every call ages the runnable processes by one, runs the one
 whose age plus priority bonus is greatest, and resets its age.
 */
module AgingScheduler {
  import opened Base
  import SliceRecord

  const MAX_PRIORITY: int := 4
  const PRIORITY_RATIO: int := 2

  /** One slot of the table; `sleep` counts up to zero, `blocked` is 1 for a key and 2 for a foreground child. */
  datatype Slot = Slot(free: bool, pid: nat, priority: int, lastCalled: int, sleep: int, blocked: nat, tty: nat,
    parent: nat)

  predicate Runnable(s: Slot) {
    !s.free && s.sleep >= 0 && s.blocked == 0
  }

  /** What one call does to a slot that is not chosen. */
  function Tick(s: Slot): Slot {
    if s.free then s
    else if s.sleep < 0 then s.(sleep := s.sleep + 1)
    else if s.blocked == 0 then s.(lastCalled := s.lastCalled + 1)
    else s
  }

  function Ticked(t: seq<Slot>): (r: seq<Slot>)
    ensures |r| == |t|
  {
    seq(|t|, i requires 0 <= i < |t| => Tick(t[i]))
  }

  function Rank(s: Slot): int {
    (MAX_PRIORITY - s.priority) * PRIORITY_RATIO + Tick(s).lastCalled
  }

  function RankOf(t: seq<Slot>, w: Option<nat>): int
    requires w.Some? ==> w.value < |t|
  {
    if w.None? then -1 else Rank(t[w.value])
  }

  /** The slot the scan settles on. */
  function Winner(t: seq<Slot>): (w: Option<nat>)
    ensures w.Some? ==> w.value < |t| && Runnable(t[w.value]) && Rank(t[w.value]) > -1
  {
    if t == [] then None
    else
      var n := |t| - 1;
      var w := Winner(t[..n]);
      if Runnable(t[n]) && Rank(t[n]) > RankOf(t, w) then Some(n) else w
  }

  /** One call of GetNextProcess on the table. */
  function Dispatch(t: seq<Slot>): (r: seq<Slot>)
    ensures |r| == |t|
  {
    match Winner(t)
    case None => Ticked(t)
    case Some(w) => Ticked(t)[w := Tick(t[w]).(lastCalled := 0)]
  }

  /**
   The choice is runnable, of greatest rank, and the lowest slot among equals; while ranks are not negative,
   nobody is chosen only when nobody is runnable.
   */
  lemma {:induction false} WinnerIsBest(t: seq<Slot>)
    ensures Winner(t).None? <==> forall i :: 0 <= i < |t| && Runnable(t[i]) ==> Rank(t[i]) <= -1
    ensures Winner(t).Some? ==> var w := Winner(t).value;
      forall i :: 0 <= i < |t| && Runnable(t[i]) ==> Rank(t[i]) < Rank(t[w]) || (Rank(t[i]) == Rank(t[w]) && w <= i)
  {
    if t != [] {
      var n := |t| - 1;
      WinnerIsBest(t[..n]);
      assert forall i :: 0 <= i < n ==> t[i] == t[..n][i];
    }
  }

  /**
   The same in the fields: with ages that are not negative and priorities in range somebody runnable is chosen if there
   is anybody; the choice is older than any other runnable process by two calls for each unit of priority that it is
   behind, and younger by no more than two calls for each unit it is ahead.  Of two of equal age the one with the lower
   priority number is preferred, and of two in all respects equal the lower slot.
   */
  lemma WinnerByAgeAndPriority(t: seq<Slot>)
    requires forall i :: 0 <= i < |t| ==> t[i].lastCalled >= 0 && 0 <= t[i].priority <= 4
    ensures Winner(t).None? <==> forall i :: 0 <= i < |t| ==> !Runnable(t[i])
    ensures Winner(t).Some? ==> var w := Winner(t).value;
      forall i :: 0 <= i < |t| && Runnable(t[i]) ==>
        var ahead, behind := t[w].lastCalled - t[i].lastCalled, t[w].priority - t[i].priority;
        if i < w then ahead > 2 * behind else ahead >= 2 * behind
  {
    WinnerIsBest(t);
  }

  // ----- the table between two calls -----

  /** The process table, with the next unused pid and the pid of the running process. */
  datatype Table = Table(slots: seq<Slot>, nextPid: nat, current: nat)

  /** What GetProcessByPID points to: idle, which is outside the table, a slot, or nothing. */
  datatype Target = Idle | At(slot: nat) | Nobody

  function Find(t: seq<Slot>, pid: nat): (i: Target)
    ensures i.At? ==> i.slot < |t| && t[i.slot].pid == pid
    ensures i.Idle? <==> pid == 0
    ensures i.Nobody? ==> forall j :: 0 <= j < |t| ==> t[j].pid != pid
  {
    if pid == 0 then Idle
    else match FirstFrom(t, pid, 0)
      case None => Nobody
      case Some(i) => At(i)
  }

  function FirstFrom(t: seq<Slot>, pid: nat, from: nat): (i: Option<nat>)
    requires from <= |t|
    ensures i.Some? ==> from <= i.value < |t| && t[i.value].pid == pid
    ensures i.Some? ==> forall j :: from <= j < i.value ==> t[j].pid != pid
    ensures i.None? ==> forall j :: from <= j < |t| ==> t[j].pid != pid
    decreases |t| - from
  {
    if from == |t| then None
    else if t[from].pid == pid then Some(from)
    else FirstFrom(t, pid, from + 1)
  }

  function FirstFree(t: seq<Slot>): (i: Option<nat>)
    ensures i.Some? ==> i.value < |t| && t[i.value].free && forall j :: 0 <= j < i.value ==> !t[j].free
    ensures i.None? ==> forall j :: 0 <= j < |t| ==> !t[j].free
  {
    if t == [] then None
    else
      var w := FirstFree(t[..|t|-1]);
      if w.None? && t[|t|-1].free then Some(|t| - 1) else w
  }

  function SetBlocked(t: seq<Slot>, at: Target, blocked: nat): (r: seq<Slot>)
    requires at.At? ==> at.slot < |t|
    ensures |r| == |t|
  {
    if at.At? then t[at.slot := t[at.slot].(blocked := blocked)] else t
  }

  /** The slots with a new process in one of them. */
  function Filled(t: Table, slot: nat, tty: nat, priority: int, front: bool): (r: seq<Slot>)
    requires slot < |t.slots|
    ensures |r| == |t.slots|
  {
    t.slots[slot := Slot(false, t.nextPid, priority, 0, 0, 0, tty, if front && t.current >= 1 then t.current else 0)]
  }

  /** CreateProcessAt: the first free slot; a foreground process blocks the process that starts it. */
  function Create(t: Table, slot: nat, tty: nat, priority: int, front: bool): Table
    requires slot < |t.slots|
  {
    var made := Filled(t, slot, tty, priority, front);
    var blocked := if front && t.current >= 1 then SetBlocked(made, Find(made, t.current), 2) else made;
    Table(blocked, t.nextPid + 1, t.current)
  }

  /** Creation stays within the table and follows no null pointer. */
  predicate CreateIsSafe(t: Table, tty: nat, priority: int, front: bool) {
    var slot := FirstFree(t.slots);
    slot.Some? && (front ==> !Find(Filled(t, slot.value, tty, priority, front), t.current).Nobody?)
  }

  /** Destruction follows no null pointer: the pid is known, and so is the parent of a process that is in use. */
  predicate DestroyIsSafe(t: Table, pid: nat) {
    match Find(t.slots, pid)
    case Idle => true
    case Nobody => false
    case At(i) => t.slots[i].free || !Find(t.slots, t.slots[i].parent).Nobody?
  }

  /** An input for which it does: with one process, pid 1 of idle, the shell's `kill 999`. */
  lemma KillOfNobody(t: Table)
    requires t.slots == [Slot(false, 1, 0, 0, 0, 0, 0, 0)]
    ensures !DestroyIsSafe(t, 999) && DestroyIsSafe(t, 1)
  {
  }

  /** Destroy: the slot is freed and a waiting parent released. */
  function Destroy(t: Table, pid: nat): Table {
    var at := Find(t.slots, pid);
    if !at.At? || t.slots[at.slot].free then t
    else
      var s := SetBlocked(t.slots, Find(t.slots, t.slots[at.slot].parent), 0);
      t.(slots := s[at.slot := s[at.slot].(free := true)])
  }

  /** nice: a priority out of range is refused. */
  function Nice(t: Table, pid: nat, priority: int): Table {
    var at := Find(t.slots, pid);
    if !at.At? || !(0 <= priority <= MAX_PRIORITY) then t
    else t.(slots := t.slots[at.slot := t.slots[at.slot].(priority := priority)])
  }

  /** Sleep(n), by the running process. */
  function Sleep(t: Table, n: int): Table {
    var at := Find(t.slots, t.current);
    if at.At? then t.(slots := t.slots[at.slot := t.slots[at.slot].(sleep := n * -20)]) else t
  }

  /** The running process waits for a key. */
  function WaitForKey(t: Table): Table {
    var at := Find(t.slots, t.current);
    if at.At? && t.slots[at.slot].blocked == 0 then t.(slots := SetBlocked(t.slots, at, 1)) else t
  }

  /** A key arrives at a terminal. */
  function Key(t: Table, tty: nat): Table {
    t.(slots := seq(|t.slots|, i requires 0 <= i < |t.slots| =>
      var s := t.slots[i]; if s.blocked == 1 && s.tty == tty then s.(blocked := 0) else s))
  }

  datatype Event =
    | ECreate(tty: nat, priority: int, front: bool)
    | EDestroy(pid: nat)
    | ENice(pid: nat, priority: int)
    | ESleep(n: int)
    | EWaitForKey
    | EKey(tty: nat)

  /** CreateProcessAt relies on a free slot; its callers pass priorities in range. */
  ghost predicate Allowed(t: Table, e: Event) {
    e.ECreate? ==> FirstFree(t.slots).Some? && 0 <= e.priority <= MAX_PRIORITY
  }

  ghost function Apply(t: Table, e: Event): Table
    requires Allowed(t, e)
  {
    match e
    case ECreate(tty, priority, front) => Create(t, FirstFree(t.slots).value, tty, priority, front)
    case EDestroy(pid) => Destroy(t, pid)
    case ENice(pid, priority) => Nice(t, pid, priority)
    case ESleep(n) => Sleep(t, n)
    case EWaitForKey => WaitForKey(t)
    case EKey(tty) => Key(t, tty)
  }

  ghost predicate AllAllowed(t: Table, es: seq<Event>)
    decreases |es|
  {
    es != [] ==> Allowed(t, es[0]) && AllAllowed(Apply(t, es[0]), es[1..])
  }

  ghost function ApplyAll(t: Table, es: seq<Event>): Table
    requires AllAllowed(t, es)
    decreases |es|
  {
    if es == [] then t else ApplyAll(Apply(t, es[0]), es[1..])
  }

  /** What every event and every call keeps. */
  ghost predicate Valid(t: Table) {
    forall i :: 0 <= i < |t.slots| ==>
      && 0 <= t.slots[i].priority <= MAX_PRIORITY
      && t.slots[i].lastCalled >= 0
      && t.slots[i].pid < t.nextPid
  }

  /** Each slot keeps its process and its age, or got a new process of age 0. */
  ghost predicate Evolved(t: Table, u: Table) {
    && |u.slots| == |t.slots|
    && u.nextPid >= t.nextPid
    && forall i :: 0 <= i < |t.slots| ==>
         || (u.slots[i].pid == t.slots[i].pid && u.slots[i].lastCalled == t.slots[i].lastCalled)
         || (u.slots[i].pid >= t.nextPid && u.slots[i].lastCalled == 0)
  }

  lemma CreateEvolves(t: Table, e: Event)
    requires Valid(t) && Allowed(t, e) && e.ECreate?
    ensures Valid(Apply(t, e)) && Evolved(t, Apply(t, e))
  {
  }

  lemma DestroyEvolves(t: Table, pid: nat)
    requires Valid(t)
    ensures Valid(Destroy(t, pid)) && Evolved(t, Destroy(t, pid))
  {
  }

  lemma EventEvolves(t: Table, e: Event)
    requires Valid(t) && Allowed(t, e)
    ensures Valid(Apply(t, e)) && Evolved(t, Apply(t, e))
  {
    match e
    case ECreate(_, _, _) => CreateEvolves(t, e);
    case EDestroy(pid) => DestroyEvolves(t, pid);
    case _ =>
  }

  lemma {:induction false} EventsEvolve(t: Table, es: seq<Event>)
    requires Valid(t) && AllAllowed(t, es)
    ensures Valid(ApplyAll(t, es)) && Evolved(t, ApplyAll(t, es))
    decreases |es|
  {
    if es != [] {
      var u := Apply(t, es[0]);
      EventEvolves(t, es[0]);
      EventsEvolve(u, es[1..]);
    }
  }

  // ----- the scheduler itself -----

  class Kernel {
    const procesos: array<Slot>
    var nextPid: nat
    var currentPid: nat
    /** The pids of the last hundred slices, and where the next one goes. */
    var last100: seq<int>
    var counter100: nat

    ghost predicate Ready()
      reads this
    {
      SliceRecord.Valid(Slices())
    }

    ghost function Slices(): SliceRecord.Record
      reads this
    {
      SliceRecord.Record(last100, counter100)
    }

    ghost function View(): Table
      reads this, procesos
    {
      Table(procesos[..], nextPid, currentPid)
    }

    constructor (slots: nat)
      ensures Ready() && fresh(procesos) && nextPid == 1 && currentPid == 0
      ensures |View().slots| == slots && forall i :: 0 <= i < slots ==> View().slots[i].free
    {
      procesos := new Slot[slots](_ => Slot(true, 0, 0, 0, 0, 0, 0, 0));
      nextPid, currentPid, last100, counter100 := 1, 0, seq(100, i => 0), 0;
    }

    /** NoProcesses */
    method NoProcesses() returns (none: bool)
      ensures none <==> forall i :: 0 <= i < procesos.Length ==> procesos[i].free
    {
      for i := 0 to procesos.Length
        invariant forall j :: 0 <= j < i ==> procesos[j].free
      {
        if !procesos[i].free { return false; }
      }
      return true;
    }

    /** GetNextTask: the slot of the choice, or none for idle. */
    method GetNextTask() returns (winner: Option<nat>)
      modifies procesos
      ensures winner == Winner(old(procesos[..]))
      ensures procesos[..] == Ticked(old(procesos[..]))
    {
      ghost var was := procesos[..];
      var none := NoProcesses();
      if none {
        WinnerIsBest(was);
        assert forall i :: 0 <= i < |was| ==> Tick(was[i]) == was[i];
        return None;
      }
      var winnerValue := -1;
      winner := None;
      for i := 0 to procesos.Length
        invariant winner == Winner(was[..i]) && winnerValue == RankOf(was[..i], winner)
        invariant forall j :: 0 <= j < procesos.Length ==> procesos[j] == if j < i then Tick(was[j]) else was[j]
      {
        assert was[..i+1][..i] == was[..i];
        var s := procesos[i];
        if !s.free {
          if s.sleep >= 0 {
            if s.blocked == 0 {
              procesos[i] := s.(lastCalled := s.lastCalled + 1);
              var value := (MAX_PRIORITY - s.priority) * PRIORITY_RATIO + procesos[i].lastCalled;
              if value > winnerValue {
                winnerValue, winner := value, Some(i);
              }
            }
          } else {
            procesos[i] := s.(sleep := s.sleep + 1);
          }
        }
      }
      assert was[..procesos.Length] == was;
    }

    /** GetNextProcess */
    method GetNextProcess() returns (winner: Option<nat>)
      requires Ready()
      modifies this`currentPid, this`last100, this`counter100, procesos
      ensures Ready() && winner == Winner(old(procesos[..]))
      ensures View() == Called(old(View()))
      ensures Slices() == SliceRecord.Noted(old(Slices()), currentPid)
    {
      winner := GetNextTask();
      if winner.Some? {
        procesos[winner.value] := procesos[winner.value].(lastCalled := 0);
        currentPid := procesos[winner.value].pid;
      } else {
        currentPid := 0;
      }
      last100 := last100[counter100 := currentPid];
      counter100 := (counter100 + 1) % 100;
    }

    /** GetProcessByPID: idle for pid 0, null for an unknown pid. */
    method GetProcessByPID(pid: nat) returns (at: Target)
      ensures at == Find(procesos[..], pid)
    {
      if pid == 0 { return Idle; }
      for i := 0 to procesos.Length
        invariant forall j :: 0 <= j < i ==> procesos[j].pid != pid
      {
        if procesos[i].pid == pid { return At(i); }
      }
      return Nobody;
    }

    /** The search of CreateProcessAt, which goes past the end of a full table. */
    method FreeSlot() returns (i: nat)
      ensures i <= procesos.Length
      ensures FirstFree(procesos[..]) == if i < procesos.Length then Some(i) else None
    {
      i := 0;
      while i < procesos.Length && !procesos[i].free
        invariant i <= procesos.Length && forall j :: 0 <= j < i ==> !procesos[j].free
      {
        i := i + 1;
      }
    }

    /** CreateProcessAt; `ok` is false when it would write past a full table, or through a null pointer. */
    method CreateProcessAt(tty: nat, priority: int, front: bool) returns (ok: bool)
      modifies this`nextPid, procesos
      ensures ok <==> CreateIsSafe(old(View()), tty, priority, front)
      ensures ok ==> View() == Create(old(View()), FirstFree(old(procesos[..])).value, tty, priority, front)
    {
      ghost var was := View();
      var i := FreeSlot();
      if i == procesos.Length {
        return false;
      }
      ok := true;
      procesos[i] := Slot(false, nextPid, priority, 0, 0, 0, tty, 0);
      nextPid := nextPid + 1;
      assert procesos[..] == was.slots[i := procesos[i]];
      if front && currentPid >= 1 {
        ghost var made := Filled(was, i, tty, priority, front);
        var at := GetProcessByPID(currentPid);
        SamePidsSameFind(procesos[..], made, currentPid);
        if at.At? {
          procesos[at.slot] := procesos[at.slot].(blocked := 2);
        } else {
          ok := false;
        }
        procesos[i] := procesos[i].(parent := currentPid);
        assert procesos[..] == SetBlocked(made, at, 2);
      }
    }

    /** Destroy; `ok` is false when it would follow a null pointer. */
    method DestroyProcess(pid: nat) returns (ok: bool)
      modifies procesos
      ensures ok <==> DestroyIsSafe(old(View()), pid)
      ensures ok ==> View() == Destroy(old(View()), pid)
    {
      var at := GetProcessByPID(pid);
      ok := !at.Nobody?;
      if at.At? && !procesos[at.slot].free {
        var parent := procesos[at.slot].parent;
        if parent != 0 {
          var p := GetProcessByPID(parent);
          if p.At? {
            procesos[p.slot] := procesos[p.slot].(blocked := 0);
          } else {
            ok := false;
          }
        }
        procesos[at.slot] := procesos[at.slot].(free := true);
      }
    }

    /** The loop of int_09 that wakes the processes waiting for a key at the terminal shown. */
    method WakeKeyWaiters(tty: nat)
      modifies procesos
      ensures View() == Key(old(View()), tty)
    {
      ghost var was := procesos[..];
      for i := 0 to procesos.Length
        invariant forall j :: 0 <= j < procesos.Length ==>
          procesos[j] == if j < i && was[j].blocked == 1 && was[j].tty == tty then was[j].(blocked := 0) else was[j]
      {
        if procesos[i].blocked == 1 && procesos[i].tty == tty {
          procesos[i] := procesos[i].(blocked := 0);
        }
      }
    }
  }

  lemma {:induction false} SamePidsSameFind(t: seq<Slot>, u: seq<Slot>, pid: nat)
    requires |t| == |u| && forall i :: 0 <= i < |t| ==> t[i].pid == u[i].pid
    ensures Find(t, pid) == Find(u, pid)
  {
    var a, b := FirstFrom(t, pid, 0), FirstFrom(u, pid, 0);
    if a.Some? {
      assert u[a.value].pid == pid;
    }
    if b.Some? {
      assert t[b.value].pid == pid;
    }
  }

  // ----- bounded waiting -----

  /** One call of GetNextProcess. */
  function Called(t: Table): Table {
    Table(Dispatch(t.slots), t.nextPid, if Winner(t.slots).None? then 0 else t.slots[Winner(t.slots).value].pid)
  }

  /** The tables before each of a series of calls, with the events between one call and the next. */
  ghost predicate IsRun(h: seq<Table>, es: seq<seq<Event>>) {
    && |h| > 0 && |es| == |h| - 1
    && Valid(h[0])
    && forall k :: 0 <= k < |es| ==> CalledAt(h, es, k)
  }

  /** Call `k`, and the events that follow it. */
  ghost predicate CalledAt(h: seq<Table>, es: seq<seq<Event>>, k: nat)
    requires k < |es| == |h| - 1
  {
    AllAllowed(Called(h[k]), es[k]) && h[k+1] == ApplyAll(Called(h[k]), es[k])
  }

  lemma CalledIsValid(t: Table)
    requires Valid(t)
    ensures Valid(Called(t)) && |Called(t).slots| == |t.slots|
  {
  }

  lemma {:induction false} RunIsValid(h: seq<Table>, es: seq<seq<Event>>, k: nat)
    requires IsRun(h, es) && k < |h|
    ensures Valid(h[k]) && |h[k].slots| == |h[0].slots|
    ensures k > 0 ==> Valid(Called(h[k-1])) && Evolved(Called(h[k-1]), h[k])
  {
    if k > 0 {
      RunIsValid(h, es, k - 1);
      assert CalledAt(h, es, k - 1);
      CalledIsValid(h[k-1]);
      EventsEvolve(Called(h[k-1]), es[k-1]);
    }
  }

  /** At every call slot `x` holds process `pid`, runnable with priority number `p` at most, and is not the choice. */
  ghost predicate PassedOver(h: seq<Table>, x: nat, pid: nat, p: nat) {
    forall k :: 0 <= k < |h| ==> CanRun(h[k].slots, x, pid, p) && Winner(h[k].slots) != Some(x)
  }

  ghost predicate CanRun(t: seq<Slot>, x: nat, pid: nat, p: nat) {
    x < |t| && t[x].pid == pid && Runnable(t[x]) && t[x].priority <= p
  }

  /** A runnable process that is passed over ages at every call. */
  lemma {:induction false} PassedOverAges(h: seq<Table>, es: seq<seq<Event>>, x: nat, pid: nat, p: nat, k: nat)
    requires IsRun(h, es) && PassedOver(h, x, pid, p) && k < |h|
    ensures x < |h[k].slots| && h[k].slots[x].lastCalled >= k
  {
    assert CanRun(h[k].slots, x, pid, p);
    RunIsValid(h, es, k);
    if k > 0 {
      PassedOverAges(h, es, x, pid, p, k - 1);
      RunIsValid(h, es, k - 1);
      assert CanRun(h[k-1].slots, x, pid, p);
      assert Called(h[k-1]).slots[x] == Tick(h[k-1].slots[x]);
    }
  }

  /** Every slot but `x` is in `e` or is younger than `d`. */
  ghost predicate Contenders(t: seq<Slot>, x: nat, e: set<nat>, d: nat) {
    forall i :: 0 <= i < |t| && i != x ==> i in e || t[i].lastCalled < d
  }

  /** One call: the winner is a contender, and stops being one. */
  lemma OneFewer(t: Table, next: Table, x: nat, p: nat, e: set<nat>, d: nat) returns (e': set<nat>)
    requires Valid(t) && Valid(Called(t)) && Evolved(Called(t), next)
    requires x < |t.slots| && Runnable(t.slots[x]) && t.slots[x].priority <= p && Winner(t.slots) != Some(x)
    requires t.slots[x].lastCalled >= 2 * p + d && Contenders(t.slots, x, e, d)
    ensures Contenders(next.slots, x, e', d + 1)
    ensures |e| > 0 && |e'| == |e| - 1
  {
    WinnerByAgeAndPriority(t.slots);
    var w := Winner(t.slots).value;
    assert w in e;
    e' := e - {w};
    forall i | 0 <= i < |next.slots| && i != x ensures i in e' || next.slots[i].lastCalled < d + 1 {
      assert i != w ==> Called(t).slots[i] == Tick(t.slots[i]);
    }
  }

  /** One call of a run that passes `x` over. */
  lemma ContendersLeft(h: seq<Table>, es: seq<seq<Event>>, x: nat, pid: nat, p: nat, k: nat, e: set<nat>, d: nat)
    returns (e': set<nat>)
    requires IsRun(h, es) && PassedOver(h, x, pid, p) && k + 1 < |h| && 2 * p + d <= k
    requires Contenders(h[k].slots, x, e, d)
    ensures Contenders(h[k+1].slots, x, e', d + 1) && |e| > 0 && |e'| == |e| - 1
  {
    RunIsValid(h, es, k + 1);
    RunIsValid(h, es, k);
    PassedOverAges(h, es, x, pid, p, k);
    assert CanRun(h[k].slots, x, pid, p);
    e' := OneFewer(h[k], h[k+1], x, p, e, d);
  }

  /** From call number `2 p` on, every call that passes `x` over uses up one other slot. */
  lemma {:induction false} ContendersShrink(h: seq<Table>, es: seq<seq<Event>>, x: nat, pid: nat, p: nat, k: nat)
    returns (e: set<nat>)
    requires IsRun(h, es) && PassedOver(h, x, pid, p) && 2 * p <= k < |h|
    ensures |e| + (k - 2 * p) <= |h[0].slots| - 1
    ensures Contenders(h[k].slots, x, e, k - 2 * p)
    decreases k
  {
    if k == 2 * p {
      RunIsValid(h, es, k);
      assert CanRun(h[k].slots, x, pid, p);
      e := SlotsBelow(|h[0].slots|) - {x};
    } else {
      var e0 := ContendersShrink(h, es, x, pid, p, k - 1);
      e := ContendersLeft(h, es, x, pid, p, k - 1, e0, k - 1 - 2 * p);
    }
  }

  ghost function SlotsBelow(n: nat): (r: set<nat>)
    ensures |r| == n && forall i: nat :: i in r <==> i < n
  {
    if n == 0 then {} else SlotsBelow(n - 1) + {n - 1}
  }

  /**
   Bounded waiting in an open system: a process that is runnable at every call, with a priority number of at most `p`,
   is dispatched within `n + 2 p` calls, `n` being the number of slots, while the other slots are created, destroyed,
   reniced, blocked and put to sleep.  The more urgent it is, the sooner: within `n` calls with number 0.
   */
  lemma BoundedWaiting(h: seq<Table>, es: seq<seq<Event>>, x: nat, pid: nat, p: nat)
    requires IsRun(h, es) && |h| == |h[0].slots| + 2 * p
    requires forall k :: 0 <= k < |h| ==> CanRun(h[k].slots, x, pid, p)
    ensures exists k :: 0 <= k < |h| && Winner(h[k].slots) == Some(x)
  {
    if PassedOver(h, x, pid, p) {
      var n := |h[0].slots|;
      var k := n + 2 * p - 1;
      assert CanRun(h[0].slots, x, pid, p);
      var e := ContendersShrink(h, es, x, pid, p, k);
      assert e == {};
      RunIsValid(h, es, k);
      PassedOverAges(h, es, x, pid, p, k);
      assert CanRun(h[k].slots, x, pid, p);
      NobodyElse(h[k], x, p, n - 1);
    } else {
      var k :| 0 <= k < |h| && !(CanRun(h[k].slots, x, pid, p) && Winner(h[k].slots) != Some(x));
      assert CanRun(h[k].slots, x, pid, p);
    }
  }

  /** With every other slot younger the process itself is the choice. */
  lemma NobodyElse(t: Table, x: nat, p: nat, d: nat)
    requires Valid(t) && x < |t.slots| && Runnable(t.slots[x]) && t.slots[x].priority <= p
    requires t.slots[x].lastCalled >= 2 * p + d && Contenders(t.slots, x, {}, d)
    ensures Winner(t.slots) == Some(x)
  {
    WinnerByAgeAndPriority(t.slots);
  }

  // ----- waiting for a child, for a key, and asleep -----

  /** A foreground process starts, and the process that runs waits for it. */
  lemma ForegroundStarts(t: Table, c: nat, i: nat, tty: nat, priority: int)
    requires Valid(t) && FirstFree(t.slots) == Some(c) && Find(t.slots, t.current) == At(i) && !t.slots[i].free
    ensures var u := Create(t, c, tty, priority, true);
      && u.slots[c] == Slot(false, t.nextPid, priority, 0, 0, 0, tty, t.current) && Runnable(u.slots[c])
      && u.slots[i] == t.slots[i].(blocked := 2) && !Runnable(u.slots[i])
      && (forall k :: 0 <= k < |t.slots| && k != c && k != i ==> u.slots[k] == t.slots[k])
      && u.nextPid == t.nextPid + 1
  {
    var made := Filled(t, c, tty, priority, true);
    NewPidSameFind(t.slots, made, c, t.current);
  }

  lemma NewPidSameFind(t: seq<Slot>, u: seq<Slot>, c: nat, pid: nat)
    requires |u| == |t| && c < |t| && (forall k :: 0 <= k < |t| && k != c ==> u[k].pid == t[k].pid) && u[c].pid != pid
    requires Find(t, pid).At? && Find(t, pid).slot != c
    ensures Find(u, pid) == Find(t, pid)
  {
    var a, b := FirstFrom(t, pid, 0), FirstFrom(u, pid, 0);
    assert u[a.value].pid == pid;
    assert t[b.value].pid == pid;
  }

  /** A background process starts, and nobody waits. */
  lemma BackgroundStarts(t: Table, c: nat, tty: nat, priority: int)
    requires FirstFree(t.slots) == Some(c)
    ensures Create(t, c, tty, priority, false).slots == t.slots[c := Slot(false, t.nextPid, priority, 0, 0, 0, tty, 0)]
  {
  }

  /**
   A process that waits for its child, or for a key at its terminal, waits on through every event but the end of a
   child of its own, its own end, and a key at that terminal for which it waits.
   */
  lemma WaitsOn(t: Table, e: Event, i: nat)
    requires Valid(t) && Allowed(t, e) && i < |t.slots| && !t.slots[i].free && t.slots[i].blocked != 0
    requires !(e.EKey? && e.tty == t.slots[i].tty && t.slots[i].blocked == 1)
    requires e.EDestroy? ==> e.pid != t.slots[i].pid && !EndsChild(t, e.pid, t.slots[i].pid)
    ensures Apply(t, e).slots[i].pid == t.slots[i].pid && !Apply(t, e).slots[i].free
    ensures Apply(t, e).slots[i].blocked != 0
    ensures Apply(t, e).slots[i].blocked == t.slots[i].blocked || (e.ECreate? && e.front && t.current == t.slots[i].pid)
  {
  }

  /** `pid` is in use and has the parent named. */
  predicate EndsChild(t: Table, pid: nat, parent: nat) {
    var at := Find(t.slots, pid);
    at.At? && !t.slots[at.slot].free && t.slots[at.slot].parent == parent
  }

  /** The end of a foreground child frees its slot and makes its parent runnable, unless that is asleep. */
  lemma ChildEndsWait(t: Table, pid: nat, c: nat, i: nat)
    requires Find(t.slots, pid) == At(c) && !t.slots[c].free && Find(t.slots, t.slots[c].parent) == At(i) && i != c
    ensures var u := Destroy(t, pid);
      && u.slots[c] == t.slots[c].(free := true) && u.slots[i] == t.slots[i].(blocked := 0)
      && (!t.slots[i].free && t.slots[i].sleep >= 0 ==> Runnable(u.slots[i]))
      && forall k :: 0 <= k < |t.slots| && k != c && k != i ==> u.slots[k] == t.slots[k]
  {
  }

  /** A key makes runnable those that wait for one at its terminal, unless asleep, and touches nobody else. */
  lemma KeyEndsWait(t: Table, tty: nat, i: nat)
    requires i < |t.slots|
    ensures t.slots[i].tty == tty && t.slots[i].blocked == 1 ==> Key(t, tty).slots[i] == t.slots[i].(blocked := 0)
    ensures !(t.slots[i].tty == tty && t.slots[i].blocked == 1) ==> Key(t, tty).slots[i] == t.slots[i]
  {
  }

  /** The process that runs waits for a key unless it waits for something already. */
  lemma KeyWaitStarts(t: Table, i: nat)
    requires Find(t.slots, t.current) == At(i)
    ensures WaitForKey(t).slots[i].blocked == (if t.slots[i].blocked == 0 then 1 else t.slots[i].blocked)
    ensures forall k :: 0 <= k < |t.slots| && k != i ==> WaitForKey(t).slots[k] == t.slots[k]
  {
  }

  /** A priority out of range is refused; any other takes effect, on the process named alone. */
  lemma NiceTakesEffect(t: Table, pid: nat, priority: int, i: nat)
    requires Find(t.slots, pid) == At(i)
    ensures Nice(t, pid, priority).slots[i].priority
         == if 0 <= priority <= 4 then priority else t.slots[i].priority
    ensures forall k :: 0 <= k < |t.slots| && k != i ==> Nice(t, pid, priority).slots[k] == t.slots[k]
  {
  }

  /** Slot `x` holds process `pid`, not blocked, and between two calls nobody changes how long it sleeps. */
  ghost predicate SleepsUndisturbed(h: seq<Table>, x: nat, pid: nat) {
    && (forall k :: 0 <= k < |h| ==>
          x < |h[k].slots| && h[k].slots[x].pid == pid && !h[k].slots[x].free && h[k].slots[x].blocked == 0)
    && forall k :: 0 < k < |h| ==> h[k].slots[x].sleep == Dispatch(h[k-1].slots)[x].sleep
  }

  /** A process that called Sleep(n) is passed over at the next 20 n calls, and is runnable at the one after. */
  lemma {:induction false} SleepLasts(h: seq<Table>, es: seq<seq<Event>>, x: nat, pid: nat, n: nat, k: nat)
    requires IsRun(h, es) && SleepsUndisturbed(h, x, pid) && k < |h| && k <= 20 * n
    requires h[0].slots[x].sleep == Sleep(h[0].(current := pid), n).slots[x].sleep
    requires Find(h[0].slots, pid) == At(x)
    ensures h[k].slots[x].sleep == k - 20 * n
    ensures Runnable(h[k].slots[x]) <==> k == 20 * n
    ensures k < 20 * n ==> Winner(h[k].slots) != Some(x)
  {
    if k > 0 {
      SleepLasts(h, es, x, pid, n, k - 1);
      assert Dispatch(h[k-1].slots)[x] == Tick(h[k-1].slots[x]);
    }
  }
}
