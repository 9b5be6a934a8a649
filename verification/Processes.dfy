/**
 Chinux's process table on values: what waiting, blocking, waking, ending and killing do to the list of processes,
 and why no process that waits for its child is left behind.
 */
module Processes {
  import opened Base

  datatype State = RUNNING | READY | BLOCKED

  /** What a process is created with and keeps. */
  datatype Ident = Ident(pid: nat, parent: int, foreground: bool)

  datatype Proc = Proc(id: Ident, state: State, waitingPid: int, sleep: nat)

  /** The list, the pid that runs, and the next unused pid. */
  datatype Table = Table(ps: seq<Proc>, current: nat, nextPid: nat)

  /** The pids kill refuses: the shells while a user is logged in, idle, and the login and logout processes. */
  datatype Guard = Guard(shells: seq<int>, usrLoged: bool, logoutPid: int, logPid: int)

  predicate Spared(g: Guard, pid: nat) {
    (pid as int in g.shells && g.usrLoged) || pid == 0 || pid == g.logoutPid || pid == g.logPid
  }

  // ----- who falls with a process -----

  /**
   `q` is `root`, or a listed process that kill does not spare and whose parent is doomed: `root` and its
   descendants reachable through listed processes that are not spared.
   */
  ghost predicate IsDoomed(ids: set<Ident>, g: Guard, root: nat, q: nat) {
    q == root || exists m ::
      m in ids && m.pid == q && !Spared(g, q) && 0 <= m.parent < q && IsDoomed(ids, g, root, m.parent)
  }

  lemma {:induction false} DoomedAbove(ids: set<Ident>, g: Guard, root: nat, q: nat)
    requires IsDoomed(ids, g, root, q)
    ensures root <= q
  {
    if q != root {
      var m :| m in ids && m.pid == q && !Spared(g, q) && 0 <= m.parent < q && IsDoomed(ids, g, root, m.parent);
      DoomedAbove(ids, g, root, m.parent);
    }
  }

  /** Who falls with a doomed process, in a list that has lost some of its members, falls anyway. */
  lemma {:induction false} DoomedWithChild(small: set<Ident>, ids: set<Ident>, g: Guard, root: nat, child: nat, q: nat)
    requires small <= ids && IsDoomed(ids, g, root, child) && IsDoomed(small, g, child, q)
    ensures IsDoomed(ids, g, root, q)
  {
    if q != child {
      var m :| m in small && m.pid == q && !Spared(g, q) && 0 <= m.parent < q && IsDoomed(small, g, child, m.parent);
      DoomedWithChild(small, ids, g, root, child, m.parent);
      assert m in ids;
    }
  }

  /** A set that holds `root` and every child, not spared, of its members holds every doomed pid. */
  lemma {:induction false} ClosedHoldsDoomed(ids: set<Ident>, g: Guard, root: nat, gone: set<nat>, q: nat)
    requires root in gone && IsDoomed(ids, g, root, q)
    requires forall m :: m in ids && !Spared(g, m.pid) && 0 <= m.parent && (m.parent as nat) in gone ==> m.pid in gone
    ensures q in gone
  {
    if q != root {
      var m :| m in ids && m.pid == q && !Spared(g, q) && 0 <= m.parent < q && IsDoomed(ids, g, root, m.parent);
      ClosedHoldsDoomed(ids, g, root, gone, m.parent);
    }
  }

  /** A line of descent: each process is listed, not spared by kill, and a child of the one before it. */
  ghost predicate Lineage(ids: set<Ident>, g: Guard, line: seq<nat>) {
    line != [] && forall i :: 0 < i < |line| ==> ChildOf(ids, g, line[i], line[i-1])
  }

  ghost predicate ChildOf(ids: set<Ident>, g: Guard, pid: nat, parent: nat) {
    !Spared(g, pid) && exists m :: m in ids && m.pid == pid && m.parent == parent
  }

  /** The doomed are exactly the ends of lines of descent from the process killed. */
  lemma {:induction false} DoomedIffDescended(ids: set<Ident>, g: Guard, root: nat, q: nat)
    requires forall m :: m in ids ==> 0 <= m.parent < m.pid
    ensures IsDoomed(ids, g, root, q) <==>
      exists line :: Lineage(ids, g, line) && line[0] == root && line[|line|-1] == q
  {
    if IsDoomed(ids, g, root, q) {
      var line := LineTo(ids, g, root, q);
    }
    if line :| Lineage(ids, g, line) && line[0] == root && line[|line|-1] == q {
      LineDooms(ids, g, line);
    }
  }

  lemma {:induction false} LineTo(ids: set<Ident>, g: Guard, root: nat, q: nat) returns (line: seq<nat>)
    requires IsDoomed(ids, g, root, q)
    ensures Lineage(ids, g, line) && line[0] == root && line[|line|-1] == q
  {
    if q == root {
      line := [root];
    } else {
      var m :| m in ids && m.pid == q && !Spared(g, q) && 0 <= m.parent < q && IsDoomed(ids, g, root, m.parent);
      var above := LineTo(ids, g, root, m.parent);
      line := above + [q];
    }
  }

  lemma {:induction false} LineDooms(ids: set<Ident>, g: Guard, line: seq<nat>)
    requires Lineage(ids, g, line) && forall m :: m in ids ==> 0 <= m.parent < m.pid
    ensures IsDoomed(ids, g, line[0], line[|line|-1])
  {
    var n := |line| - 1;
    if n > 0 {
      LineDooms(ids, g, line[..n]);
      assert ChildOf(ids, g, line[n], line[n-1]);
    }
  }

  // ----- operations on the list -----

  ghost function Ids(ps: seq<Proc>): set<Ident> {
    set p | p in ps :: p.id
  }

  ghost predicate Listed(ps: seq<Proc>, pid: nat) {
    exists p :: p in ps && p.id.pid == pid
  }

  /** The list without the processes whose pids are gone, the rest in order. */
  ghost function Keep(ps: seq<Proc>, gone: iset<nat>): seq<Proc> {
    if ps == [] then []
    else if ps[0].id.pid in gone then Keep(ps[1..], gone)
    else [ps[0]] + Keep(ps[1..], gone)
  }

  /** awake_process, on the process it finds. */
  function Awoken(p: Proc): Proc {
    if p.state == BLOCKED && p.waitingPid == 0 then p.(state := READY) else p
  }

  /** What the end of process `c` does to process `p`: a parent waiting for it is released. */
  function Released(p: Proc, c: Ident): Proc {
    if c.foreground && p.id.pid == c.parent && p.waitingPid == c.pid then Awoken(p.(waitingPid := 0)) else p
  }

  /** The identity under a pid. */
  ghost function IdOf(ps: seq<Proc>, pid: nat): (id: Option<Ident>)
    ensures id.Some? <==> Listed(ps, pid)
    ensures id.Some? ==> id.value.pid == pid && id.value in Ids(ps)
  {
    if Listed(ps, pid) then
      var p :| p in ps && p.id.pid == pid;
      Some(p.id)
    else None
  }

  function Block(p: Proc): Proc {
    p.(state := BLOCKED)
  }

  /** The part of isTimeSlot that counts sleeps down. */
  function TickOne(p: Proc): Proc {
    if p.sleep == 0 then p
    else if p.sleep == 1 then Awoken(p.(sleep := 0))
    else p.(sleep := p.sleep - 1)
  }

  /** SaveESP */
  function Saved(current: nat, p: Proc): Proc {
    if p.id.pid == current && p.state == RUNNING then p.(state := READY) else p
  }

  // ----- runs -----

  datatype Event =
    | Create(front: bool)
    | WaitPid(pid: nat)
    | SleepFor(secs: nat)
    | End
    | Kill(pid: nat, g: Guard)
    | BlockPid(pid: nat)
    | AwakePid(pid: nat)
    | Timer
    | Switch(next: nat)

  /** The current process executes; one that was killed goes on until the next switch. */
  ghost predicate Runs(t: Table) {
    !Listed(t.ps, t.current) || exists p :: p in t.ps && p.id.pid == t.current && p.state == RUNNING
  }

  /**
   System calls come from the process that runs, or from idle and the start-up code; a switch picks a READY process
   or idle.  Kills, blocks and wake-ups come at any time, from keys, terminals, semaphores or other processes.
   */
  ghost predicate Enabled(t: Table, e: Event) {
    match e
    case Create(_) => Runs(t)
    case WaitPid(_) => Runs(t)
    case SleepFor(_) => Runs(t)
    case End => Runs(t)
    case Switch(next) => next == 0 || Pickable(t, next)
    case _ => true
  }

  /** READY, or still RUNNING and so READY again once its state is saved. */
  ghost predicate Pickable(t: Table, pid: nat) {
    exists p :: p in t.ps && p.id.pid == pid && Saved(t.current, p).state == READY
  }

  /** What a step makes of a process that stays listed. */
  ghost function After(t: Table, e: Event, p: Proc): (r: Proc)
    ensures r.id == p.id
  {
    match e
    case Create(front) => p
    case WaitPid(pid) => if p.id.pid == t.current then Block(p.(waitingPid := pid)) else p
    case SleepFor(secs) => if p.id.pid == t.current then Block(p.(sleep := 18 * secs)) else p
    case End => var id := IdOf(t.ps, t.current); if id.Some? then Released(p, id.value) else p
    case Kill(pid, g) =>
      var id := IdOf(t.ps, pid); if id.Some? && !Spared(g, pid) then Released(p, id.value) else p
    case BlockPid(pid) => if p.id.pid == pid then Block(p) else p
    case AwakePid(pid) => if p.id.pid == pid then Awoken(p) else p
    case Timer => TickOne(p)
    case Switch(next) => var s := Saved(t.current, p); if p.id.pid == next then s.(state := RUNNING) else s
  }

  /** Who leaves the list: the process that ends, or the one killed with its doomed descendants. */
  ghost predicate Leaves(t: Table, e: Event, pid: nat) {
    match e
    case End => pid == t.current
    case Kill(root, g) => !Spared(g, root) && IsDoomed(Ids(t.ps), g, root, pid)
    case _ => false
  }

  /** A kill of an unlisted pid with which everybody listed falls: the list is left without the head it then reads. */
  ghost predicate LosesHead(t: Table, e: Event)
    requires e.Kill?
  {
    !Spared(e.g, e.pid) && forall p :: p in t.ps ==> Leaves(t, e, p.id.pid) && p.id.pid != e.pid
  }

  ghost function Leaving(t: Table, e: Event): iset<nat> {
    iset q: nat | Leaves(t, e, q)
  }

  ghost function Changed(t: Table, e: Event): (r: seq<Proc>)
    ensures |r| == |t.ps| && forall i :: 0 <= i < |r| ==> r[i] == After(t, e, t.ps[i])
  {
    seq(|t.ps|, i requires 0 <= i < |t.ps| => After(t, e, t.ps[i]))
  }

  function Newborn(t: Table, front: bool): Proc {
    Proc(Ident(t.nextPid, t.current, front), READY, 0, 0)
  }

  ghost function Step(t: Table, e: Event): Table {
    Table(
      Keep(Changed(t, e), Leaving(t, e)) + (if e.Create? then [Newborn(t, e.front)] else []),
      if e.Switch? then e.next else t.current,
      if e.Create? then t.nextPid + 1 else t.nextPid)
  }

  /** Pids rise along the list: processes are appended as they are created. */
  ghost predicate Rising(ps: seq<Proc>) {
    forall i, j :: 0 <= i < j < |ps| ==> ps[i].id.pid < ps[j].id.pid
  }

  /** Parents are older than their children, and only the current process runs. */
  ghost predicate Sound(t: Table, p: Proc) {
    0 < p.id.pid < t.nextPid && 0 <= p.id.parent < p.id.pid && (p.state == RUNNING ==> p.id.pid == t.current)
  }

  ghost predicate Valid(t: Table) {
    Rising(t.ps) && t.current < t.nextPid && forall p :: p in t.ps ==> Sound(t, p)
  }

  /** The process that `p` waits for is a listed foreground child of it. */
  ghost predicate ChildLives(ps: seq<Proc>, p: Proc) {
    p.waitingPid > 0 && Ident(p.waitingPid, p.id.pid, true) in Ids(ps)
  }

  ghost predicate Waits(p: Proc) {
    p.waitingPid != 0 && p.state == BLOCKED
  }

  ghost predicate WaitersHaveChildren(t: Table) {
    forall p :: p in t.ps && p.waitingPid != 0 ==> Waits(p) && ChildLives(t.ps, p)
  }

  /** Processes wait only for their own live foreground children. */
  ghost predicate Proper(t: Table, e: Event) {
    e.WaitPid? && Listed(t.ps, t.current) ==> Ident(e.pid, t.current, true) in Ids(t.ps)
  }

  // ----- one step -----

  lemma {:induction false} KeepMembers(ps: seq<Proc>, gone: iset<nat>)
    ensures forall p :: p in Keep(ps, gone) <==> p in ps && p.id.pid !in gone
    ensures Rising(ps) ==> Rising(Keep(ps, gone))
  {
    if ps != [] {
      KeepMembers(ps[1..], gone);
    }
  }

  /** The processes after a step: those that stay, as the step makes them, and the one it creates. */
  lemma StepMembers(t: Table, e: Event)
    ensures forall q :: q in Step(t, e).ps ==>
      || (exists p :: p in t.ps && q == After(t, e, p) && !Leaves(t, e, p.id.pid))
      || (e.Create? && q == Newborn(t, e.front))
    ensures forall p :: p in t.ps && !Leaves(t, e, p.id.pid) ==> After(t, e, p) in Step(t, e).ps
  {
    var c := Changed(t, e);
    KeepMembers(c, Leaving(t, e));
    forall q | q in Step(t, e).ps && !(e.Create? && q == Newborn(t, e.front))
      ensures exists p :: p in t.ps && q == After(t, e, p) && !Leaves(t, e, p.id.pid)
    {
      var i :| 0 <= i < |c| && c[i] == q;
      assert t.ps[i] in t.ps && q == After(t, e, t.ps[i]);
    }
    forall p | p in t.ps && !Leaves(t, e, p.id.pid) ensures After(t, e, p) in Step(t, e).ps {
      var i :| 0 <= i < |t.ps| && t.ps[i] == p;
      assert c[i] == After(t, e, p);
    }
  }

  /**
   Killing an unspared process takes exactly it and its line of descent off the list, and leaves the others in order;
   a spared one costs nothing.
   */
  lemma KillRemovesExactly(t: Table, g: Guard, pid: nat, p: Proc)
    requires Valid(t) && p in t.ps
    ensures Spared(g, pid) ==> Listed(Step(t, Kill(pid, g)).ps, p.id.pid)
    ensures !Spared(g, pid) ==>
      (Listed(Step(t, Kill(pid, g)).ps, p.id.pid) <==>
        !exists line :: Lineage(Ids(t.ps), g, line) && line[0] == pid && line[|line|-1] == p.id.pid)
    ensures Rising(Step(t, Kill(pid, g)).ps)
  {
    var e := Kill(pid, g);
    forall m | m in Ids(t.ps) ensures 0 <= m.parent < m.pid {
      var q :| q in t.ps && q.id == m;
      assert Sound(t, q);
    }
    DoomedIffDescended(Ids(t.ps), g, pid, p.id.pid);
    ListedUnlessLeft(t, e, p);
    StepKeepsRising(t, e);
  }

  lemma ListedUnlessLeft(t: Table, e: Event, p: Proc)
    requires Valid(t) && p in t.ps
    ensures Listed(Step(t, e).ps, p.id.pid) <==> !Leaves(t, e, p.id.pid)
  {
    StepMembers(t, e);
    assert Sound(t, p);
    if Listed(Step(t, e).ps, p.id.pid) {
      var q :| q in Step(t, e).ps && q.id.pid == p.id.pid;
    } else {
      assert After(t, e, p).id == p.id;
    }
  }

  lemma AfterIsSound(t: Table, e: Event, p: Proc)
    requires Valid(t) && p in t.ps
    ensures Sound(t.(current := Step(t, e).current, nextPid := Step(t, e).nextPid), After(t, e, p))
  {
    assert Sound(t, p);
  }

  /** Without a newcomer the list after a step is what stays of it. */
  lemma NoNewcomer(t: Table, e: Event)
    requires !e.Create?
    ensures Step(t, e).ps == Keep(Changed(t, e), Leaving(t, e))
  {
  }

  lemma StepKeepsRising(t: Table, e: Event)
    requires Valid(t)
    ensures Rising(Step(t, e).ps)
  {
    var c := Changed(t, e);
    KeepMembers(c, Leaving(t, e));
    assert Rising(c);
    forall q | q in c ensures q.id.pid < t.nextPid {
      var i :| 0 <= i < |c| && c[i] == q;
      assert Sound(t, t.ps[i]);
    }
  }

  lemma StepKeepsValid(t: Table, e: Event)
    requires Valid(t) && Enabled(t, e)
    ensures Valid(Step(t, e))
  {
    var next := Step(t, e);
    StepKeepsRising(t, e);
    StepMembers(t, e);
    forall q | q in next.ps ensures Sound(next, q) {
      if p :| p in t.ps && q == After(t, e, p) && !Leaves(t, e, p.id.pid) {
        AfterIsSound(t, e, p);
      }
    }
    PickedIsOld(t, e);
  }

  lemma PickedIsOld(t: Table, e: Event)
    requires Valid(t) && Enabled(t, e)
    ensures Step(t, e).current < Step(t, e).nextPid
  {
  }

  /** The child a process waits for leaves the list only by its own end or by a kill aimed at it. */
  lemma ChildLeaves(t: Table, e: Event, p: Proc)
    requires Valid(t) && p in t.ps && Waits(p) && ChildLives(t.ps, p)
    requires !Leaves(t, e, p.id.pid) && Leaves(t, e, p.waitingPid)
    ensures After(t, e, p) == p.(waitingPid := 0, state := READY)
  {
    var c := Ident(p.waitingPid, p.id.pid, true);
    var q :| q in t.ps && q.id == c;
    match e
    case End =>
      assert IdOf(t.ps, t.current) == Some(c);
    case Kill(root, g) =>
      assert root == c.pid;
      assert IdOf(t.ps, root) == Some(c);
    case _ =>
  }

  /** While the child stays, nothing ends the wait. */
  lemma ChildStays(t: Table, e: Event, p: Proc)
    requires Valid(t) && Enabled(t, e) && p in t.ps && Waits(p) && ChildLives(t.ps, p)
    requires !Leaves(t, e, p.id.pid) && !Leaves(t, e, p.waitingPid)
    ensures After(t, e, p).waitingPid == p.waitingPid && Waits(After(t, e, p))
  {
    WaiterIsIdle(t, e, p);
    match e
    case End =>
    case Kill(root, g) =>
    case _ =>
  }

  /** A blocked process does not make system calls, and is not picked to run. */
  lemma WaiterIsIdle(t: Table, e: Event, p: Proc)
    requires Valid(t) && Enabled(t, e) && p in t.ps && p.state == BLOCKED
    ensures Runs(t) ==> p.id.pid != t.current
    ensures e.Switch? ==> p.id.pid != e.next
  {
    assert Sound(t, p);
  }

  /**
   What happens to a process that waits for its live child, in any step: while the child stays listed the process
   goes on waiting for it, whoever blocks or wakes it; when the child leaves the list the process is READY.
   */
  lemma WaiterReleasedExactly(t: Table, e: Event, p: Proc)
    requires Valid(t) && Enabled(t, e) && p in t.ps && Waits(p) && ChildLives(t.ps, p)
    requires !Leaves(t, e, p.id.pid)
    ensures After(t, e, p) in Step(t, e).ps
    ensures ChildLives(Step(t, e).ps, p) ==> After(t, e, p).waitingPid == p.waitingPid && Waits(After(t, e, p))
    ensures !ChildLives(Step(t, e).ps, p) ==> After(t, e, p) == p.(waitingPid := 0, state := READY)
  {
    StepMembers(t, e);
    var c :| c in t.ps && c.id == Ident(p.waitingPid, p.id.pid, true);
    if Leaves(t, e, p.waitingPid) {
      ChildLeaves(t, e, p);
      forall q | q in Step(t, e).ps ensures q.id != c.id {
        assert Sound(t, c);
      }
    } else {
      assert After(t, e, c) in Step(t, e).ps;
      ChildStays(t, e, p);
    }
  }

  /** When processes wait only for their own live foreground children, every waiting process has its child listed. */
  lemma StepKeepsWaiters(t: Table, e: Event)
    requires Valid(t) && Enabled(t, e) && Proper(t, e) && WaitersHaveChildren(t)
    ensures WaitersHaveChildren(Step(t, e))
  {
    var next := Step(t, e);
    StepMembers(t, e);
    forall q | q in next.ps && q.waitingPid != 0 ensures Waits(q) && ChildLives(next.ps, q) {
      var p :| p in t.ps && q == After(t, e, p) && !Leaves(t, e, p.id.pid);
      if p.waitingPid != 0 {
        WaiterReleasedExactly(t, e, p);
      } else {
        NewWaiter(t, e, p);
      }
    }
  }

  lemma NewWaiter(t: Table, e: Event, p: Proc)
    requires Valid(t) && Proper(t, e) && p in t.ps && p.waitingPid == 0 && After(t, e, p).waitingPid != 0
    ensures Waits(After(t, e, p)) && ChildLives(Step(t, e).ps, After(t, e, p))
  {
    var c :| c in t.ps && c.id == Ident(e.pid, t.current, true);
    StepMembers(t, e);
    assert After(t, e, c) in Step(t, e).ps;
    assert Sound(t, c);
  }

  /**
   A process that waits for anything but a live foreground child of its own waits for ever: no event makes it READY,
   and no process that could release it ever appears.
   */
  lemma StrandedStays(t: Table, e: Event, p: Proc)
    requires Valid(t) && Enabled(t, e) && p in t.ps && Waits(p) && !ChildLives(t.ps, p)
    requires !Leaves(t, e, p.id.pid)
    ensures var q := After(t, e, p);
      q in Step(t, e).ps && q.waitingPid == p.waitingPid && Waits(q) && !ChildLives(Step(t, e).ps, q)
  {
    StepMembers(t, e);
    WaiterIsIdle(t, e, p);
    NoChildNoRelease(t, e, p);
    forall q | q in Step(t, e).ps ensures p.waitingPid > 0 ==> q.id != Ident(p.waitingPid, p.id.pid, true) {
      assert Sound(t, p);
    }
  }

  lemma NoChildNoRelease(t: Table, e: Event, p: Proc)
    requires Valid(t) && Enabled(t, e) && p in t.ps && Waits(p) && !ChildLives(t.ps, p)
    ensures After(t, e, p).waitingPid == p.waitingPid && Waits(After(t, e, p))
  {
    WaiterIsIdle(t, e, p);
    forall c | c in Ids(t.ps) ensures Released(p, c) == p {
      var o :| o in t.ps && o.id == c;
      assert Sound(t, o);
    }
  }

  // ----- every run -----

  ghost predicate AllEnabled(t: Table, es: seq<Event>)
    decreases |es|
  {
    es != [] ==> Enabled(t, es[0]) && AllEnabled(Step(t, es[0]), es[1..])
  }

  ghost predicate AllProper(t: Table, es: seq<Event>)
    decreases |es|
  {
    es != [] ==> Proper(t, es[0]) && AllProper(Step(t, es[0]), es[1..])
  }

  ghost function Run(t: Table, es: seq<Event>): Table
    decreases |es|
  {
    if es == [] then t else Run(Step(t, es[0]), es[1..])
  }

  /** The list at start-up. */
  const Empty: Table := Table([], 0, 1)

  lemma {:induction false} RunKeepsWaiters(t: Table, es: seq<Event>)
    requires Valid(t) && WaitersHaveChildren(t) && AllEnabled(t, es) && AllProper(t, es)
    ensures Valid(Run(t, es)) && WaitersHaveChildren(Run(t, es))
    decreases |es|
  {
    if es != [] {
      StepKeepsValid(t, es[0]);
      StepKeepsWaiters(t, es[0]);
      RunKeepsWaiters(Step(t, es[0]), es[1..]);
    }
  }

  /**
   No stranded waiter: in every state reached from start-up, each listed process with a nonzero waitingPid is BLOCKED
   and its child is listed.
   */
  lemma NoStrandedWaiter(es: seq<Event>, p: Proc)
    requires AllEnabled(Empty, es) && AllProper(Empty, es)
    requires p in Run(Empty, es).ps && p.waitingPid != 0
    ensures p.state == BLOCKED && p.waitingPid > 0
    ensures exists c :: c in Run(Empty, es).ps && c.id == Ident(p.waitingPid, p.id.pid, true)
  {
    RunKeepsWaiters(Empty, es);
  }

  /** The pids that leave the list do not come back. */
  lemma GoneForGood(t: Table, e: Event, pid: nat)
    requires Valid(t) && pid < t.nextPid && !Listed(t.ps, pid)
    ensures !Listed(Step(t, e).ps, pid)
  {
    StepMembers(t, e);
  }

  lemma {:induction false} GoneForGoodInRuns(t: Table, es: seq<Event>, pid: nat)
    requires Valid(t) && AllEnabled(t, es) && pid < t.nextPid && !Listed(t.ps, pid)
    ensures !Listed(Run(t, es).ps, pid)
    decreases |es|
  {
    if es != [] {
      GoneForGood(t, es[0], pid);
      StepKeepsValid(t, es[0]);
      GoneForGoodInRuns(Step(t, es[0]), es[1..], pid);
    }
  }

  /** Over any run a process goes on waiting for its child as long as both stay listed. */
  lemma {:induction false} WaitsWhileChildLives(t: Table, es: seq<Event>, p: Proc)
    requires Valid(t) && AllEnabled(t, es) && p in t.ps && Waits(p) && ChildLives(t.ps, p)
    requires Listed(Run(t, es).ps, p.id.pid) && Listed(Run(t, es).ps, p.waitingPid)
    ensures exists q :: q in Run(t, es).ps && q.id == p.id && q.waitingPid == p.waitingPid && Waits(q)
    decreases |es|
  {
    if es != [] {
      var next := Step(t, es[0]);
      StepKeepsValid(t, es[0]);
      StillListed(t, es, p.id.pid);
      StillListed(t, es, p.waitingPid);
      WaiterReleasedExactly(t, es[0], p);
      WaitsWhileChildLives(next, es[1..], After(t, es[0], p));
    }
  }

  /** A listed process that is listed after a run has not left in its first step. */
  lemma StillListed(t: Table, es: seq<Event>, pid: nat)
    requires Valid(t) && es != [] && AllEnabled(t, es) && Listed(t.ps, pid) && Listed(Run(t, es).ps, pid)
    ensures !Leaves(t, es[0], pid)
  {
    if Leaves(t, es[0], pid) {
      var next := Step(t, es[0]);
      StepMembers(t, es[0]);
      StepKeepsValid(t, es[0]);
      var p :| p in t.ps && p.id.pid == pid;
      assert Sound(t, p);
      forall q | q in next.ps ensures q.id.pid != pid {
      }
      GoneForGoodInRuns(next, es[1..], pid);
    }
  }

  /** Over any run a process that waits for no live foreground child of its own waits as long as it is listed. */
  lemma {:induction false} StrandedForEver(t: Table, es: seq<Event>, p: Proc)
    requires Valid(t) && AllEnabled(t, es) && p in t.ps && Waits(p) && !ChildLives(t.ps, p)
    requires Listed(Run(t, es).ps, p.id.pid)
    ensures exists q :: q in Run(t, es).ps && q.id == p.id && q.waitingPid == p.waitingPid && Waits(q)
    decreases |es|
  {
    if es != [] {
      StillListed(t, es, p.id.pid);
      StepKeepsValid(t, es[0]);
      StrandedStays(t, es[0], p);
      StrandedForEver(Step(t, es[0]), es[1..], After(t, es[0], p));
    }
  }

  // ----- sleeping -----

  function Timers(es: seq<Event>): nat {
    if es == [] then 0 else (if es[0].Timer? then 1 else 0) + Timers(es[1..])
  }

  /** Nobody wakes the process or takes it off the list. */
  ghost predicate LeftAlone(t: Table, es: seq<Event>, pid: nat)
    decreases |es|
  {
    es != [] ==> es[0] != AwakePid(pid) && !Leaves(t, es[0], pid) && LeftAlone(Step(t, es[0]), es[1..], pid)
  }

  /** Only the timer and a wake-up change a sleeping process. */
  lemma SleeperStep(t: Table, e: Event, p: Proc)
    requires Valid(t) && Enabled(t, e) && p in t.ps && p.state == BLOCKED && p.waitingPid == 0
        && e != AwakePid(p.id.pid)
    ensures After(t, e, p) == if e.Timer? then TickOne(p) else p
  {
    WaiterIsIdle(t, e, p);
    forall c | c in Ids(t.ps) ensures Released(p, c) == p {
      var o :| o in t.ps && o.id == c;
      assert Sound(t, o);
    }
  }

  /** A process left alone sleeps on while fewer timer ticks pass than it asked for, and loses one per tick. */
  lemma {:induction false} SleepsOn(t: Table, es: seq<Event>, p: Proc) returns (q: Proc)
    requires Valid(t) && AllEnabled(t, es) && LeftAlone(t, es, p.id.pid)
    requires p in t.ps && p.state == BLOCKED && p.waitingPid == 0 && p.sleep > Timers(es)
    ensures Valid(Run(t, es)) && q in Run(t, es).ps && q == p.(sleep := p.sleep - Timers(es))
    decreases |es|
  {
    if es == [] {
      q := p;
    } else {
      SleeperStep(t, es[0], p);
      StepMembers(t, es[0]);
      StepKeepsValid(t, es[0]);
      q := SleepsOn(Step(t, es[0]), es[1..], After(t, es[0], p));
    }
  }

  /** The tick that makes up the number asked for wakes it. */
  lemma WakesOnTime(t: Table, es: seq<Event>, p: Proc)
    requires Valid(t) && AllEnabled(t, es) && LeftAlone(t, es, p.id.pid)
    requires p in t.ps && p.state == BLOCKED && p.waitingPid == 0 && p.sleep == Timers(es) + 1
    ensures p.(state := READY, sleep := 0) in Step(Run(t, es), Timer).ps
  {
    var q := SleepsOn(t, es, p);
    StepMembers(Run(t, es), Timer);
    assert After(Run(t, es), Timer, q) == p.(state := READY, sleep := 0);
  }

  /**
   A process that calls sleep(secs) and is left alone sleeps through the next 18 * secs - 1 timer ticks and is READY
   after the one that follows.
   */
  lemma SleepEndsOnTime(t: Table, secs: nat, es: seq<Event>, p: Proc)
    requires Valid(t) && Enabled(t, SleepFor(secs)) && p in t.ps && p.id.pid == t.current && p.waitingPid == 0
    requires var t' := Step(t, SleepFor(secs)); AllEnabled(t', es) && LeftAlone(t', es, p.id.pid)
    requires Timers(es) < 18 * secs
    ensures var now := Run(Step(t, SleepFor(secs)), es);
      && p.(state := BLOCKED, sleep := 18 * secs - Timers(es)) in now.ps
      && (Timers(es) + 1 == 18 * secs ==> p.(state := READY, sleep := 0) in Step(now, Timer).ps)
  {
    var e := SleepFor(secs);
    StepMembers(t, e);
    StepKeepsValid(t, e);
    var asleep := p.(state := BLOCKED, sleep := 18 * secs);
    assert After(t, e, p) == asleep;
    var q := SleepsOn(Step(t, e), es, asleep);
    if Timers(es) + 1 == 18 * secs {
      WakesOnTime(Step(t, e), es, asleep);
    }
  }

  // ----- a process left behind -----

  lemma {:induction false} NobodyGone(ps: seq<Proc>, gone: iset<nat>)
    requires forall p :: p in ps ==> p.id.pid !in gone
    ensures Keep(ps, gone) == ps
  {
    if ps != [] {
      NobodyGone(ps[1..], gone);
    }
  }

  /** A step in which nobody comes or goes, or one comes. */
  lemma NobodyLeaves(t: Table, e: Event)
    requires !e.End? && !e.Kill?
    ensures Step(t, e).ps == Changed(t, e) + (if e.Create? then [Newborn(t, e.front)] else [])
  {
    NobodyGone(Changed(t, e), Leaving(t, e));
  }

  const Elder: Ident := Ident(1, 0, true)
  const Younger: Ident := Ident(2, 1, true)

  /** A process is started, runs, starts a foreground child, and the child runs in its place. */
  lemma ChildStarts()
    ensures Step(Empty, Create(true)) == Table([Proc(Elder, READY, 0, 0)], 0, 2)
    ensures Step(Table([Proc(Elder, READY, 0, 0)], 0, 2), Switch(1)) == Table([Proc(Elder, RUNNING, 0, 0)], 1, 2)
    ensures Step(Table([Proc(Elder, RUNNING, 0, 0)], 1, 2), Create(true))
         == Table([Proc(Elder, RUNNING, 0, 0), Proc(Younger, READY, 0, 0)], 1, 3)
    ensures Step(Table([Proc(Elder, RUNNING, 0, 0), Proc(Younger, READY, 0, 0)], 1, 3), Switch(2))
         == Table([Proc(Elder, READY, 0, 0), Proc(Younger, RUNNING, 0, 0)], 2, 3)
  {
    NobodyLeaves(Empty, Create(true));
    NobodyLeaves(Table([Proc(Elder, READY, 0, 0)], 0, 2), Switch(1));
    NobodyLeaves(Table([Proc(Elder, RUNNING, 0, 0)], 1, 2), Create(true));
    NobodyLeaves(Table([Proc(Elder, RUNNING, 0, 0), Proc(Younger, READY, 0, 0)], 1, 3), Switch(2));
  }

  /** The child ends while its parent is not waiting yet, and the parent waits for it afterwards. */
  lemma ChildEnds()
    ensures Step(Table([Proc(Elder, READY, 0, 0), Proc(Younger, RUNNING, 0, 0)], 2, 3), End)
         == Table([Proc(Elder, READY, 0, 0)], 2, 3)
    ensures Step(Table([Proc(Elder, READY, 0, 0)], 2, 3), Switch(1)) == Table([Proc(Elder, RUNNING, 0, 0)], 1, 3)
    ensures Step(Table([Proc(Elder, RUNNING, 0, 0)], 1, 3), WaitPid(2)) == Table([Proc(Elder, BLOCKED, 2, 0)], 1, 3)
  {
    var t := Table([Proc(Elder, READY, 0, 0), Proc(Younger, RUNNING, 0, 0)], 2, 3);
    assert t.ps[1].id in Ids(t.ps);
    assert IdOf(t.ps, 2) == Some(Younger);
    assert Changed(t, End) == t.ps;
    KeepFirst(t.ps[0], t.ps[1], Leaving(t, End));
    assert t.ps == [t.ps[0], t.ps[1]];
    NobodyLeaves(Table([Proc(Elder, READY, 0, 0)], 2, 3), Switch(1));
    NobodyLeaves(Table([Proc(Elder, RUNNING, 0, 0)], 1, 3), WaitPid(2));
  }

  lemma KeepFirst(a: Proc, b: Proc, gone: iset<nat>)
    requires a.id.pid !in gone && b.id.pid in gone
    ensures Keep([a, b], gone) == [a]
  {
    assert [a, b][1..] == [b] && [b][1..] == [];
    assert Keep([b], gone) == [];
  }

  lemma RunSplits(t: Table, e: Event, es: seq<Event>)
    ensures Run(t, [e] + es) == Run(Step(t, e), es)
    ensures AllEnabled(t, [e] + es) <==> Enabled(t, e) && AllEnabled(Step(t, e), es)
  {
    assert ([e] + es)[1..] == es;
  }

  /** A run from start-up that leaves a process behind: its child ends before it waits for the child. */
  lemma ChildEndsFirst(es: seq<Event>)
    requires es == [Create(true), Switch(1), Create(true), Switch(2), End, Switch(1), WaitPid(2)]
    ensures AllEnabled(Empty, es)
    ensures var t := Run(Empty, es); exists p :: p in t.ps && Waits(p) && !ChildLives(t.ps, p)
  {
    ChildStarts();
    ChildEnds();
    var t1 := Table([Proc(Elder, READY, 0, 0)], 0, 2);
    var t2 := Table([Proc(Elder, RUNNING, 0, 0)], 1, 2);
    var t3 := Table([Proc(Elder, RUNNING, 0, 0), Proc(Younger, READY, 0, 0)], 1, 3);
    var t4 := Table([Proc(Elder, READY, 0, 0), Proc(Younger, RUNNING, 0, 0)], 2, 3);
    var t5 := Table([Proc(Elder, READY, 0, 0)], 2, 3);
    var t6 := Table([Proc(Elder, RUNNING, 0, 0)], 1, 3);
    EnabledNow(t1, t2, t3, t4, t5, t6);
    RunSplits(t6, WaitPid(2), []);
    RunSplits(t5, Switch(1), [WaitPid(2)]);
    RunSplits(t4, End, [Switch(1), WaitPid(2)]);
    RunSplits(t3, Switch(2), [End, Switch(1), WaitPid(2)]);
    RunSplits(t2, Create(true), [Switch(2), End, Switch(1), WaitPid(2)]);
    RunSplits(t1, Switch(1), [Create(true), Switch(2), End, Switch(1), WaitPid(2)]);
    RunSplits(Empty, Create(true), [Switch(1), Create(true), Switch(2), End, Switch(1), WaitPid(2)]);
    LeftBehind(Table([Proc(Elder, BLOCKED, 2, 0)], 1, 3));
  }

  lemma EnabledNow(t1: Table, t2: Table, t3: Table, t4: Table, t5: Table, t6: Table)
    requires t1 == Table([Proc(Elder, READY, 0, 0)], 0, 2) && t2 == Table([Proc(Elder, RUNNING, 0, 0)], 1, 2)
    requires t3 == Table([Proc(Elder, RUNNING, 0, 0), Proc(Younger, READY, 0, 0)], 1, 3)
    requires t4 == Table([Proc(Elder, READY, 0, 0), Proc(Younger, RUNNING, 0, 0)], 2, 3)
    requires t5 == Table([Proc(Elder, READY, 0, 0)], 2, 3) && t6 == Table([Proc(Elder, RUNNING, 0, 0)], 1, 3)
    ensures Enabled(Empty, Create(true)) && Enabled(t1, Switch(1)) && Enabled(t2, Create(true))
    ensures Enabled(t3, Switch(2)) && Enabled(t4, End) && Enabled(t5, Switch(1)) && Enabled(t6, WaitPid(2))
  {
    assert t1.ps[0] in t1.ps && t2.ps[0] in t2.ps && t3.ps[1] in t3.ps;
    assert t4.ps[1] in t4.ps && t5.ps[0] in t5.ps && t6.ps[0] in t6.ps;
  }

  lemma LeftBehind(t: Table)
    requires t == Table([Proc(Elder, BLOCKED, 2, 0)], 1, 3)
    ensures exists p :: p in t.ps && Waits(p) && !ChildLives(t.ps, p)
  {
    assert t.ps[0] in t.ps;
  }

  // ----- a kill that reads an empty list -----

  /** A process ends before its child, which then runs. */
  lemma ParentEnds()
    ensures Step(Table([Proc(Elder, RUNNING, 0, 0), Proc(Younger, READY, 0, 0)], 1, 3), End)
         == Table([Proc(Younger, READY, 0, 0)], 1, 3)
    ensures Step(Table([Proc(Younger, READY, 0, 0)], 1, 3), Switch(2)) == Table([Proc(Younger, RUNNING, 0, 0)], 2, 3)
  {
    var t := Table([Proc(Elder, RUNNING, 0, 0), Proc(Younger, READY, 0, 0)], 1, 3);
    assert t.ps[0].id in Ids(t.ps);
    assert IdOf(t.ps, 1) == Some(Elder);
    assert Changed(t, End) == t.ps;
    KeepSecond(t.ps[0], t.ps[1], Leaving(t, End));
    assert t.ps == [t.ps[0], t.ps[1]];
    NobodyLeaves(Table([Proc(Younger, READY, 0, 0)], 1, 3), Switch(2));
  }

  lemma KeepSecond(a: Proc, b: Proc, gone: iset<nat>)
    requires a.id.pid in gone && b.id.pid !in gone
    ensures Keep([a, b], gone) == [b]
  {
    assert [a, b][1..] == [b] && [b][1..] == [];
    assert Keep([b], gone) == [b];
  }

  /** A run from start-up after which a kill loses the head of the list: the pid of a process that has ended. */
  lemma KillOfTheEnded(es: seq<Event>, g: Guard)
    requires es == [Create(true), Switch(1), Create(true), End, Switch(2)] && !Spared(g, 1) && !Spared(g, 2)
    ensures AllEnabled(Empty, es) && Enabled(Run(Empty, es), Kill(1, g)) && LosesHead(Run(Empty, es), Kill(1, g))
  {
    ChildStarts();
    ParentEnds();
    var t1 := Table([Proc(Elder, READY, 0, 0)], 0, 2);
    var t2 := Table([Proc(Elder, RUNNING, 0, 0)], 1, 2);
    var t3 := Table([Proc(Elder, RUNNING, 0, 0), Proc(Younger, READY, 0, 0)], 1, 3);
    var t4 := Table([Proc(Younger, READY, 0, 0)], 1, 3);
    EnabledThen(t1, t2, t3, t4);
    RunSplits(t4, Switch(2), []);
    RunSplits(t3, End, [Switch(2)]);
    RunSplits(t2, Create(true), [End, Switch(2)]);
    RunSplits(t1, Switch(1), [Create(true), End, Switch(2)]);
    RunSplits(Empty, Create(true), [Switch(1), Create(true), End, Switch(2)]);
    OrphanFalls(Table([Proc(Younger, RUNNING, 0, 0)], 2, 3), g);
  }

  lemma EnabledThen(t1: Table, t2: Table, t3: Table, t4: Table)
    requires t1 == Table([Proc(Elder, READY, 0, 0)], 0, 2) && t2 == Table([Proc(Elder, RUNNING, 0, 0)], 1, 2)
    requires t3 == Table([Proc(Elder, RUNNING, 0, 0), Proc(Younger, READY, 0, 0)], 1, 3)
    requires t4 == Table([Proc(Younger, READY, 0, 0)], 1, 3)
    ensures Enabled(Empty, Create(true)) && Enabled(t1, Switch(1)) && Enabled(t2, Create(true))
    ensures Enabled(t3, End) && Enabled(t4, Switch(2))
  {
    assert t1.ps[0] in t1.ps && t2.ps[0] in t2.ps && t3.ps[0] in t3.ps && t4.ps[0] in t4.ps;
  }

  lemma OrphanFalls(t: Table, g: Guard)
    requires t == Table([Proc(Younger, RUNNING, 0, 0)], 2, 3) && !Spared(g, 1) && !Spared(g, 2)
    ensures LosesHead(t, Kill(1, g))
  {
    assert t.ps[0].id in Ids(t.ps);
    assert IsDoomed(Ids(t.ps), g, 1, 1);
    assert IsDoomed(Ids(t.ps), g, 1, 2);
  }

  // ----- what a kill refuses and takes, in the fields -----

  /**
   A kill of a shell while a user is logged in, of idle, or of the login or logout process changes nothing; after any
   other kill the pid is not listed.
   */
  lemma KillRefusedExactly(t: Table, g: Guard, pid: nat)
    requires Valid(t)
    ensures
      if (g.usrLoged && exists j :: 0 <= j < |g.shells| && g.shells[j] == pid) || pid == 0
        || pid == g.logoutPid || pid == g.logPid
      then Step(t, Kill(pid, g)) == t
      else forall p :: p in Step(t, Kill(pid, g)).ps ==> p.id.pid != pid
  {
    var e := Kill(pid, g);
    if Spared(g, pid) {
      assert Changed(t, e) == t.ps;
      NobodyGone(t.ps, Leaving(t, e));
    } else {
      StepMembers(t, e);
    }
  }

  /**
   Of the other listed processes those fall that are children of the pid killed, or of a process that falls, and are
   not protected themselves: not a shell while a user is logged in, nor the login or logout process.
   */
  lemma FallsWithParent(t: Table, g: Guard, pid: nat, q: Proc)
    requires Valid(t) && q in t.ps && q.id.pid != pid && Step(t, Kill(pid, g)) != t
    ensures var after := Step(t, Kill(pid, g)).ps;
      Listed(after, q.id.pid) <==>
        || (g.usrLoged && exists j :: 0 <= j < |g.shells| && g.shells[j] == q.id.pid)
        || q.id.pid == g.logoutPid || q.id.pid == g.logPid
        || (q.id.parent != pid && !exists p :: p in t.ps && p.id.pid == q.id.parent && !Listed(after, p.id.pid))
  {
    var e := Kill(pid, g);
    if Spared(g, pid) {
      KillRefusedExactly(t, g, pid);
      assert false;
    }
    assert Sound(t, q);
    ListedUnlessLeft(t, e, q);
    FallsOneUp(t, g, pid, q);
    forall p | p in t.ps ensures Listed(Step(t, e).ps, p.id.pid) <==> !IsDoomed(Ids(t.ps), g, pid, p.id.pid) {
      ListedUnlessLeft(t, e, p);
    }
  }

  /** Doom comes from the parent. */
  lemma FallsOneUp(t: Table, g: Guard, pid: nat, q: Proc)
    requires Valid(t) && q in t.ps && q.id.pid != pid
    ensures IsDoomed(Ids(t.ps), g, pid, q.id.pid) <==>
      !Spared(g, q.id.pid) && (q.id.parent == pid
        || exists p :: p in t.ps && p.id.pid == q.id.parent && IsDoomed(Ids(t.ps), g, pid, p.id.pid))
  {
    var ids := Ids(t.ps);
    assert Sound(t, q) && q.id in ids;
    forall m | m in ids && m.pid == q.id.pid ensures m == q.id {
      var o :| o in t.ps && o.id == m;
      OnePid(t, o, q);
    }
    if IsDoomed(ids, g, pid, q.id.pid) && q.id.parent != pid {
      var m :| m in ids && m.pid == q.id.pid && !Spared(g, q.id.pid) && 0 <= m.parent < q.id.pid
        && IsDoomed(ids, g, pid, m.parent);
      var n :| n in ids && n.pid == q.id.parent;
      var p :| p in t.ps && p.id == n;
      assert IsDoomed(ids, g, pid, p.id.pid);
    }
  }

  lemma OnePid(t: Table, p: Proc, q: Proc)
    requires Valid(t) && p in t.ps && q in t.ps && p.id.pid == q.id.pid
    ensures p == q
  {
    var i :| 0 <= i < |t.ps| && t.ps[i] == p;
    var j :| 0 <= j < |t.ps| && t.ps[j] == q;
  }

  // ----- what the other events do, in the fields -----

  /** A process created is READY, at the end of the list, with a pid nobody had and the running process as parent. */
  lemma CreateTakesEffect(t: Table, front: bool)
    requires Valid(t)
    ensures Step(t, Create(front)).ps == t.ps + [Proc(Ident(t.nextPid, t.current, front), READY, 0, 0)]
    ensures !Listed(t.ps, t.nextPid)
  {
    NobodyLeaves(t, Create(front));
    assert Changed(t, Create(front)) == t.ps;
  }

  /** Blocking makes the process named BLOCKED and changes nobody else. */
  lemma BlockTakesEffect(t: Table, pid: nat, i: nat)
    requires i < |t.ps|
    ensures |Step(t, BlockPid(pid)).ps| == |t.ps|
    ensures Step(t, BlockPid(pid)).ps[i] == if t.ps[i].id.pid == pid then t.ps[i].(state := BLOCKED) else t.ps[i]
  {
    NobodyLeaves(t, BlockPid(pid));
  }

  /** A wake-up makes the process named READY if it is BLOCKED and waits for no child, and changes nobody else. */
  lemma AwakeTakesEffect(t: Table, pid: nat, i: nat)
    requires i < |t.ps|
    ensures |Step(t, AwakePid(pid)).ps| == |t.ps|
    ensures Step(t, AwakePid(pid)).ps[i] ==
      if t.ps[i].id.pid == pid && t.ps[i].state == BLOCKED && t.ps[i].waitingPid == 0 then t.ps[i].(state := READY)
      else t.ps[i]
  {
    NobodyLeaves(t, AwakePid(pid));
  }

  /** A wait makes the running process BLOCKED, waiting for the pid, and changes nobody else. */
  lemma WaitTakesEffect(t: Table, pid: nat, i: nat)
    requires i < |t.ps|
    ensures |Step(t, WaitPid(pid)).ps| == |t.ps|
    ensures Step(t, WaitPid(pid)).ps[i] ==
      if t.ps[i].id.pid == t.current then t.ps[i].(state := BLOCKED, waitingPid := pid) else t.ps[i]
  {
    NobodyLeaves(t, WaitPid(pid));
  }

  /** After a switch exactly the process picked is RUNNING, if any; the one that ran is READY unless it is BLOCKED. */
  lemma SwitchTakesEffect(t: Table, next: nat, i: nat)
    requires Valid(t) && i < |t.ps|
    ensures |Step(t, Switch(next)).ps| == |t.ps|
    ensures var q := Step(t, Switch(next)).ps[i];
      && q == t.ps[i].(state := q.state)
      && (q.state == RUNNING <==> q.id.pid == next)
      && (q.id.pid != next ==> (q.state == BLOCKED <==> t.ps[i].state == BLOCKED))
  {
    NobodyLeaves(t, Switch(next));
    assert Sound(t, t.ps[i]);
  }

  /** Nobody wakes the process. */
  ghost predicate Unwoken(es: seq<Event>, pid: nat) {
    forall i :: 0 <= i < |es| ==> es[i] != AwakePid(pid)
  }

  /** A process blocked for a key or by a semaphore stays as it is, over every run that does not wake it or end it. */
  lemma {:induction false} BlockedUntilAwoken(t: Table, es: seq<Event>, p: Proc)
    requires Valid(t) && AllEnabled(t, es) && p in t.ps && p.state == BLOCKED && p.waitingPid == 0 && p.sleep == 0
    requires Unwoken(es, p.id.pid) && Listed(Run(t, es).ps, p.id.pid)
    ensures p in Run(t, es).ps
    decreases |es|
  {
    if es != [] {
      StillListed(t, es, p.id.pid);
      StepKeepsValid(t, es[0]);
      BlockedStays(t, es[0], p);
      assert forall i :: 0 <= i < |es[1..]| ==> es[1..][i] == es[i+1];
      BlockedUntilAwoken(Step(t, es[0]), es[1..], p);
    }
  }

  lemma BlockedStays(t: Table, e: Event, p: Proc)
    requires Valid(t) && Enabled(t, e) && p in t.ps && p.state == BLOCKED && p.waitingPid == 0 && p.sleep == 0
    requires e != AwakePid(p.id.pid) && !Leaves(t, e, p.id.pid)
    ensures p in Step(t, e).ps
  {
    StepMembers(t, e);
    assert Sound(t, p);
    WaiterIsIdle(t, e, p);
    forall c | c in Ids(t.ps) ensures Released(p, c) == p {
      var o :| o in t.ps && o.id == c;
      assert Sound(t, o);
    }
    assert After(t, e, p) == p;
  }
}
