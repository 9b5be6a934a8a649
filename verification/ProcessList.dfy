/**
 Chinux's linked list of processes in the heap: appending, blocking, waking, waiting, ending, and the recursive kill
 that unlinks nodes from the list it is walking.  Every method is proved against the steps of Processes.
 */
module ProcessList {
  import opened Base
  import opened Processes

  class Process {
    const id: Ident
    var state: State
    var waitingPid: int
    var sleep: nat

    constructor (id: Ident, state: State, waitingPid: int)
      ensures this.id == id && Value() == Proc(id, state, waitingPid, 0)
    {
      this.id, this.state, this.waitingPid, this.sleep := id, state, waitingPid, 0;
    }

    ghost function Value(): Proc
      reads this
    {
      Proc(id, state, waitingPid, sleep)
    }
  }

  class ProcessNode {
    const process: Process
    var next: ProcessNode?

    constructor (process: Process)
      ensures this.process == process && next == null
    {
      this.process, next := process, null;
    }
  }

  ghost function Head(nodes: seq<ProcessNode>): ProcessNode? {
    if nodes == [] then null else nodes[0]
  }

  ghost predicate Chain(nodes: seq<ProcessNode>, first: ProcessNode?)
    reads nodes`next
  {
    first == Head(nodes) && forall i {:trigger nodes[i].next} :: 0 <= i < |nodes| ==>
      nodes[i].next == Head(nodes[i+1..])
  }

  ghost function Pid(n: ProcessNode): nat {
    n.process.id.pid
  }

  ghost predicate RisingPids(nodes: seq<ProcessNode>) {
    forall i, j :: 0 <= i < j < |nodes| ==> Pid(nodes[i]) < Pid(nodes[j])
  }

  /** Pids rise along the list and parents are older than their children. */
  ghost predicate Family(nodes: seq<ProcessNode>, nextPid: nat) {
    && RisingPids(nodes)
    && forall n {:trigger n.process} :: n in nodes ==> 0 < Pid(n) < nextPid && 0 <= n.process.id.parent < Pid(n)
  }

  ghost function ProcessesOf(nodes: seq<ProcessNode>): set<Process> {
    set n | n in nodes :: n.process
  }

  ghost function View(nodes: seq<ProcessNode>): (v: seq<Proc>)
    reads ProcessesOf(nodes)
    ensures |v| == |nodes| && forall i :: 0 <= i < |v| ==> v[i] == nodes[i].process.Value()
  {
    seq(|nodes|, i requires 0 <= i < |nodes| reads ProcessesOf(nodes) => nodes[i].process.Value())
  }

  ghost function KeepNodes(nodes: seq<ProcessNode>, gone: set<nat>): seq<ProcessNode> {
    if nodes == [] then []
    else if Pid(nodes[0]) in gone then KeepNodes(nodes[1..], gone)
    else [nodes[0]] + KeepNodes(nodes[1..], gone)
  }

  ghost function NodeIds(nodes: seq<ProcessNode>): set<Ident> {
    set n | n in nodes :: n.process.id
  }

  lemma {:induction false} KeepNodesMembers(nodes: seq<ProcessNode>, gone: set<nat>)
    ensures forall n :: n in KeepNodes(nodes, gone) <==> n in nodes && Pid(n) !in gone
    ensures forall i :: 0 <= i < |KeepNodes(nodes, gone)| ==>
        KeepNodes(nodes, gone)[i] in nodes && Pid(KeepNodes(nodes, gone)[i]) !in gone
    ensures |KeepNodes(nodes, gone)| <= |nodes|
    ensures (forall n :: n in nodes ==> Pid(n) !in gone) ==> KeepNodes(nodes, gone) == nodes
  {
    if nodes != [] {
      KeepNodesMembers(nodes[1..], gone);
    }
  }

  lemma {:induction false} KeepRising(nodes: seq<ProcessNode>, gone: set<nat>)
    requires RisingPids(nodes)
    ensures RisingPids(KeepNodes(nodes, gone))
  {
    if nodes != [] {
      KeepRising(nodes[1..], gone);
      if Pid(nodes[0]) !in gone {
        var kept := KeepNodes(nodes[1..], gone);
        KeepNodesMembers(nodes[1..], gone);
        forall i | 0 <= i < |kept| ensures Pid(nodes[0]) < Pid(kept[i]) {
          var j :| 0 < j < |nodes| && nodes[j] == kept[i];
        }
        PrependRising(nodes[0], kept);
      }
    }
  }

  lemma PrependRising(n: ProcessNode, rest: seq<ProcessNode>)
    requires RisingPids(rest) && forall i :: 0 <= i < |rest| ==> Pid(n) < Pid(rest[i])
    ensures RisingPids([n] + rest)
  {
  }

  /** The node of the process killed points to the rest of the list, as it will be. */
  lemma RootPoints(was: seq<ProcessNode>, gone: set<nat>, left: seq<ProcessNode>, pid: nat, first: ProcessNode?)
    requires RisingPids(was) && left == KeepNodes(was, gone) && Chain(left, first) && pid !in gone
    ensures forall k {:trigger was[k]} :: 0 <= k < |was| && Pid(was[k]) == pid ==>
      was[k] in left && was[k].next == Head(KeepNodes(was[k+1..], gone + {pid}))
  {
    forall k {:trigger was[k]} | 0 <= k < |was| && Pid(was[k]) == pid
      ensures was[k] in left && was[k].next == Head(KeepNodes(was[k+1..], gone + {pid}))
    {
      RootPlace(was, k, gone, left);
      assert left[|KeepNodes(was[..k], gone)|].next == was[k].next;
    }
  }

  lemma KeepFamily(nodes: seq<ProcessNode>, nextPid: nat, gone: set<nat>)
    requires Family(nodes, nextPid)
    ensures Family(KeepNodes(nodes, gone), nextPid)
  {
    KeepRising(nodes, gone);
    KeepNodesMembers(nodes, gone);
  }

  lemma {:induction false} KeepConcat(a: seq<ProcessNode>, b: seq<ProcessNode>, gone: set<nat>)
    ensures KeepNodes(a + b, gone) == KeepNodes(a, gone) + KeepNodes(b, gone)
  {
    if a == [] {
      assert a + b == b;
    } else {
      assert (a + b)[1..] == a[1..] + b;
      KeepConcat(a[1..], b, gone);
    }
  }

  lemma {:induction false} KeepTwice(a: seq<ProcessNode>, gone: set<nat>, more: set<nat>)
    ensures KeepNodes(KeepNodes(a, gone), more) == KeepNodes(a, gone + more)
  {
    if a != [] {
      KeepTwice(a[1..], gone, more);
    }
  }

  /** A list of nodes and a list of values that lose the same pids keep matching. */
  lemma {:induction false} KeepMatches(nodes: seq<ProcessNode>, gone: set<nat>, c: seq<Proc>, leaving: iset<nat>)
    requires |c| == |nodes| && forall i :: 0 <= i < |c| ==> c[i].id == nodes[i].process.id
    requires SameLeave(nodes, gone, leaving)
    requires forall i :: 0 <= i < |c| && Pid(nodes[i]) !in gone ==> c[i] == nodes[i].process.Value()
    ensures View(KeepNodes(nodes, gone)) == Keep(c, leaving)
  {
    if nodes != [] {
      KeepMatches(nodes[1..], gone, c[1..], leaving);
      if Pid(nodes[0]) !in gone {
        var kept := KeepNodes(nodes[1..], gone);
        assert View([nodes[0]] + kept) == [c[0]] + View(kept);
      }
    }
  }

  const TIMESLOT: int := 3

  class Kernel {
    var ready: ProcessNode?
    const idle: Process
    var currentPid: nat
    var nextPid: nat
    var actualKilled: bool
    var timeslot: int
    var guard: Guard
    /** The nodes of the list, in order. */
    ghost var nodes: seq<ProcessNode>

    ghost predicate Valid()
      reads this`ready, this`nodes, this`nextPid, nodes`next
    {
      Chain(nodes, ready) && Family(nodes, nextPid) && idle.id == Ident(0, -1, false)
    }

    /** The processes of the list, and idle. */
    ghost function Everyone(): set<Process>
      reads this`nodes
    {
      ProcessesOf(nodes) + {idle}
    }

    ghost function AsTable(): Table
      reads this`nodes, this`currentPid, this`nextPid, ProcessesOf(nodes)
    {
      Table(View(nodes), currentPid, nextPid)
    }

    constructor (guard: Guard)
      ensures Valid() && AsTable() == Empty && this.guard == guard && idle.waitingPid == -1
    {
      idle := new Process(Ident(0, -1, false), State.READY, -1);
      ready, currentPid, nextPid, nodes := null, 0, 1, [];
      actualKilled, timeslot, this.guard := false, TIMESLOT, guard;
    }

    /** GetProcessByPID: idle for an unlisted pid. */
    method GetProcessByPID(pid: nat) returns (p: Process)
      requires Valid()
      ensures forall n {:trigger n.process} :: n in nodes && Pid(n) == pid ==> p == n.process
      ensures (forall n :: n in nodes ==> Pid(n) != pid) ==> p == idle
    {
      if pid == 0 || ready == null {
        return idle;
      }
      var aux := ready;
      ghost var k := 0;
      while aux != null && aux.process.id.pid != pid
        invariant 0 <= k <= |nodes| && aux == Head(nodes[k..])
        invariant forall i :: 0 <= i < k ==> Pid(nodes[i]) != pid
        decreases |nodes| - k
      {
        assert nodes[k].next == Head(nodes[k+1..]);
        aux, k := aux.next, k + 1;
      }
      if aux == null {
        return idle;
      }
      assert nodes[k] == aux;
      return aux.process;
    }

    /** awake_process */
    method AwakeProcess(pid: nat)
      requires Valid()
      modifies Everyone()`state
      ensures Valid()
      ensures forall n {:trigger n.process} :: n in nodes ==>
        n.process.Value() == if Pid(n) == pid then Awoken(old(n.process.Value())) else old(n.process.Value())
    {
      var p := GetProcessByPID(pid);
      if p.state == BLOCKED && p.waitingPid == 0 {
        p.state := State.READY;
      }
    }

    /** The part that end_process and kill_in_kernel share: a parent that waits for the process is released. */
    method ReleaseParent(proc: Process)
      requires Valid() && (proc == idle || proc in ProcessesOf(nodes))
      modifies Everyone()`state, Everyone()`waitingPid
      ensures Valid()
      ensures forall n {:trigger n.process} :: n in nodes ==>
          n.process.Value() == Released(old(n.process.Value()), proc.id)
    {
      if proc.id.foreground {
        var parent := GetProcessByPID(proc.id.parent);
        if parent.waitingPid == proc.id.pid {
          parent.waitingPid := 0;
          AwakeProcess(parent.id.pid);
        }
      }
    }

    /** The unlinking that end_process and kill_in_kernel share; it reads the head of the list. */
    method Unlink(pid: nat)
      requires Valid() && ready != null
      modifies this`ready, this`nodes, nodes`next
      ensures Valid() && nodes == KeepNodes(old(nodes), {pid})
      ensures forall n :: n in old(nodes) && Pid(n) == pid ==> n.next == old(n.next)
    {
      KeepFamily(nodes, nextPid, {pid});
      UnlinkNode(pid);
      nodes := KeepNodes(nodes, {pid});
    }

    /** The pointer updates, before the ghost list follows. */
    method UnlinkNode(pid: nat)
      requires Valid() && ready != null
      modifies this`ready, nodes`next
      ensures Chain(KeepNodes(nodes, {pid}), ready)
      ensures forall n :: n in nodes && Pid(n) == pid ==> n.next == old(n.next)
    {
      if ready.process.id.pid == pid {
        UnlinkFirst();
      } else {
        var aux;
        ghost var k;
        aux, k := BeforePid(pid);
        assert nodes[k].next == Head(nodes[k+1..]);
        if aux.next != null {
          UnlinkNext(aux, k);
        } else {
          NoneGone(nodes, {pid});
        }
      }
    }

    method UnlinkFirst()
      requires Valid() && ready != null
      modifies this`ready
      ensures Chain(KeepNodes(nodes, {Pid(nodes[0])}), ready)
    {
      OneLess(nodes, 0);
      assert nodes[0].next == Head(nodes[1..]);
      ready := ready.next;
    }

    method UnlinkNext(aux: ProcessNode, ghost k: nat)
      requires Valid() && k + 1 < |nodes| && aux == nodes[k]
      modifies aux`next
      ensures Chain(KeepNodes(nodes, {Pid(nodes[k+1])}), ready)
    {
      OneLess(nodes, k + 1);
      assert nodes[k].next == Head(nodes[k+1..]);
      assert nodes[k+1].next == Head(nodes[k+2..]);
      aux.next := aux.next.next;
      SpliceChain(nodes, k);
    }

    /** The last node before the one sought, or the last of all. */
    method BeforePid(pid: nat) returns (aux: ProcessNode, ghost k: nat)
      requires Valid() && ready != null && Pid(ready) != pid
      ensures k < |nodes| && aux == nodes[k] && Pid(aux) != pid
      ensures if k + 1 < |nodes| then Pid(nodes[k+1]) == pid else forall n :: n in nodes ==> Pid(n) != pid
    {
      aux, k := ready, 0;
      while aux.next != null && aux.next.process.id.pid != pid
        invariant 0 <= k < |nodes| && aux == nodes[k]
        invariant forall i :: 0 <= i <= k ==> Pid(nodes[i]) != pid
        decreases |nodes| - k
      {
        assert nodes[k].next == Head(nodes[k+1..]);
        aux, k := aux.next, k + 1;
      }
      assert nodes[k].next == Head(nodes[k+1..]);
    }

    /**
     kill_in_kernel: unlinks the process and, through recursive calls made while the list is walked, its doomed
     descendants.  `gone` names them; `ok` is false when the walk ends on an empty list, whose head the unlinking reads.
     */
    method KillInKernel(pid: nat) returns (ghost gone: set<nat>, ok: bool, ghost id: Ident)
      requires Valid()
      modifies this`ready, this`nodes, this`actualKilled, nodes`next, Everyone()`state, Everyone()`waitingPid
      decreases nextPid - pid, 6
      ensures Valid() && Fell(old(nodes), nodes, guard, pid, gone, ok) && PointsOn(old(nodes), pid, gone)
      ensures actualKilled == (old(actualKilled) || currentPid in gone)
      ensures IsFound(old(NodeIds(nodes)), pid, id)
      ensures forall n {:trigger n.process} :: n in nodes && n in old(nodes) ==>
        n.process.Value() == KilledValue(guard, pid, id, old(n.process.Value()))
    {
      gone, ok := {}, true;
      if Spared(guard, pid) {
        NoneGone(nodes, {});
        forall k | 0 <= k < |nodes| ensures nodes[k].next == Head(KeepNodes(nodes[k+1..], {})) {
          NoneGone(nodes[k+1..], {});
        }
        var proc := GetProcessByPID(pid);
        id := proc.id;
      } else {
        gone, ok, id := KillUnspared(pid);
      }
    }

    method KillUnspared(pid: nat) returns (ghost gone: set<nat>, ok: bool, ghost id: Ident)
      requires Valid() && !Spared(guard, pid)
      modifies this`ready, this`nodes, this`actualKilled, nodes`next, Everyone()`state, Everyone()`waitingPid
      decreases nextPid - pid, 5
      ensures Valid() && Fell(old(nodes), nodes, guard, pid, gone, ok) && PointsOn(old(nodes), pid, gone)
      ensures actualKilled == (old(actualKilled) || currentPid in gone)
      ensures IsFound(old(NodeIds(nodes)), pid, id)
      ensures forall n {:trigger n.process} :: n in nodes && n in old(nodes) ==>
        n.process.Value() == Released(old(n.process.Value()), id)
    {
      ghost var was := nodes;
      ghost var below;
      below, id := KillBelow(pid);
      assert nodes + [] == nodes;
      ok := UnlinkRoot(pid, was, below);
      gone := below + {pid};
    }

    /** Everything of kill_in_kernel but the last unlinking. */
    method KillBelow(pid: nat) returns (ghost gone: set<nat>, ghost id: Ident)
      requires Valid() && !Spared(guard, pid)
      modifies this`ready, this`nodes, this`actualKilled, nodes`next, Everyone()`state, Everyone()`waitingPid
      decreases nextPid - pid, 4
      ensures Valid() && Walk(old(nodes), gone, nodes, [], guard, pid)
      ensures actualKilled == (old(actualKilled) || currentPid in gone + {pid})
      ensures IsFound(old(NodeIds(nodes)), pid, id)
      ensures forall n {:trigger n.process} :: n in nodes && n in old(nodes) && Pid(n) != pid ==>
        n.process.Value() == Released(old(n.process.Value()), id)
    {
      if pid == currentPid {
        actualKilled := true;
      }
      id := ReleaseFor(pid);
      gone := KillChildren(pid);
    }

    /** The start of kill_in_kernel: the parent that waits for the process is released. */
    method ReleaseFor(pid: nat) returns (ghost id: Ident)
      requires Valid() && !Spared(guard, pid)
      modifies Everyone()`state, Everyone()`waitingPid
      ensures Valid() && IsFound(NodeIds(nodes), pid, id)
      ensures forall n {:trigger n.process} :: n in nodes ==> n.process.Value() == Released(old(n.process.Value()), id)
    {
      var proc := GetProcessByPID(pid);
      id := proc.id;
      assert IsFound(NodeIds(nodes), pid, id);
      ReleaseParent(proc);
    }

    /** The end of kill_in_kernel: the process itself is unlinked. */
    method UnlinkRoot(pid: nat, ghost was: seq<ProcessNode>, ghost gone: set<nat>) returns (ok: bool)
      requires Valid() && RisingPids(was) && !Spared(guard, pid)
      requires Walk(was, gone, nodes, [], guard, pid)
      modifies this`ready, this`nodes, nodes`next
      ensures Valid() && Fell(was, nodes, guard, pid, gone + {pid}, ok) && PointsOn(was, pid, gone + {pid})
      ensures forall n {:trigger n.process} :: n in nodes ==>
        n in old(nodes) && Pid(n) != pid && n.process.Value() == old(n.process.Value())
    {
      ghost var left := nodes;
      KillEnds(was, gone, left, pid, guard);
      NothingLeft(was, pid, gone);
      RootPoints(was, gone, left, pid, ready);
      ok := UnlinkIfAny(pid);
    }

    /** The unlinking, unless it would read the head of an empty list. */
    method UnlinkIfAny(pid: nat) returns (ok: bool)
      requires Valid()
      modifies this`ready, this`nodes, nodes`next
      ensures Valid() && nodes == KeepNodes(old(nodes), {pid}) && (ok <==> old(nodes) != [])
      ensures forall n :: n in old(nodes) && Pid(n) == pid ==> n.next == old(n.next)
      ensures forall n {:trigger n.process} :: n in nodes ==>
        n in old(nodes) && Pid(n) != pid && n.process.Value() == old(n.process.Value())
    {
      KeepNodesMembers(nodes, {pid});
      ok := ready != null;
      if ok {
        Unlink(pid);
      }
    }

    /** The walk of kill_in_kernel. */
    method KillChildren(pid: nat) returns (ghost gone: set<nat>)
      requires Valid() && !Spared(guard, pid)
      modifies this`ready, this`nodes, this`actualKilled, nodes`next, Everyone()`state, Everyone()`waitingPid
      decreases nextPid - pid, 3
      ensures Valid() && Walk(old(nodes), gone, nodes, [], guard, pid)
      ensures actualKilled == (old(actualKilled) || currentPid in gone)
      ensures forall n {:trigger n.process} :: n in nodes && n in old(nodes) && Pid(n) != pid ==>
          n.process.Value() == old(n.process.Value())
    {
      var aux := ready;
      ghost var was := nodes;
      ghost var done: seq<ProcessNode>, rest := [], nodes;
      gone := {};
      WalkStarts(was, guard, pid);
      while aux != null
        invariant Valid() && nodes == done + rest && aux == Head(rest)
        invariant Walk(was, gone, done, rest, guard, pid)
        invariant actualKilled == (old(actualKilled) || currentPid in gone)
        invariant forall n {:trigger n.process} :: n in nodes && n in old(nodes) && Pid(n) != pid ==>
            n.process.Value() == old(n.process.Value())
        decreases |rest|
      {
        aux, gone, done, rest := WalkOn(aux, pid, was, gone, done, rest);
      }
      assert done + [] == done;
    }

    /** One round of the walk. */
    method WalkOn(aux: ProcessNode, pid: nat, ghost was: seq<ProcessNode>, ghost gone: set<nat>,
        ghost done: seq<ProcessNode>, ghost rest: seq<ProcessNode>)
      returns (next: ProcessNode?, ghost gone': set<nat>, ghost done': seq<ProcessNode>, ghost rest': seq<ProcessNode>)
      requires Valid() && !Spared(guard, pid) && nodes == done + rest && rest != [] && aux == rest[0]
      requires Walk(was, gone, done, rest, guard, pid) && (currentPid in gone ==> actualKilled)
      modifies this`ready, this`nodes, this`actualKilled, nodes`next, Everyone()`state, Everyone()`waitingPid
      decreases nextPid - pid, 2
      ensures Valid() && nodes == done' + rest' && next == Head(rest') && |rest'| < |rest|
      ensures actualKilled == (old(actualKilled) || currentPid in gone') && (currentPid in gone ==> currentPid in gone')
      ensures Walk(was, gone', done', rest', guard, pid)
      ensures forall n {:trigger n in nodes} :: n in nodes ==> n in old(nodes)
      ensures forall n {:trigger n.process} :: n in nodes && n in old(nodes) && Pid(n) != pid ==>
          n.process.Value() == old(n.process.Value())
    {
      if aux.process.id.parent == pid {
        next, gone', done', rest' := WalkOverChild(aux, pid, was, gone, done, rest);
      } else {
        ghost var k := |done|;
        assert nodes[k] == aux && rest[1..] == nodes[k+1..];
        assert nodes[k].next == Head(nodes[k+1..]);
        WalkSkips(was, gone, done, rest, guard, pid);
        next, gone', done', rest' := aux.next, gone, done + [rest[0]], rest[1..];
      }
    }

    method WalkOverChild(aux: ProcessNode, pid: nat, ghost was: seq<ProcessNode>, ghost gone: set<nat>,
        ghost done: seq<ProcessNode>, ghost rest: seq<ProcessNode>)
      returns (next: ProcessNode?, ghost gone': set<nat>, ghost done': seq<ProcessNode>, ghost rest': seq<ProcessNode>)
      requires Valid() && !Spared(guard, pid) && nodes == done + rest && rest != [] && aux == rest[0]
      requires Walk(was, gone, done, rest, guard, pid) && (currentPid in gone ==> actualKilled)
      requires aux.process.id.parent == pid
      modifies this`ready, this`nodes, this`actualKilled, nodes`next, Everyone()`state, Everyone()`waitingPid
      decreases nextPid - pid, 1
      ensures Valid() && nodes == done' + rest' && next == Head(rest') && |rest'| < |rest|
      ensures actualKilled == (old(actualKilled) || currentPid in gone') && gone <= gone'
      ensures Walk(was, gone', done', rest', guard, pid)
      ensures forall n {:trigger n in nodes} :: n in nodes ==> n in old(nodes)
      ensures forall n {:trigger n.process} :: n in nodes && n in old(nodes) && Pid(n) != pid ==>
          n.process.Value() == old(n.process.Value())
    {
      ghost var k := |done|;
      assert nodes[k] == aux && rest[1..] == nodes[k+1..];
      ghost var more := KillNode(aux, pid, k);
      WalkKills(was, gone, done, rest, more, guard, pid);
      gone', done', rest' := gone + more, KeepNodes(done + [rest[0]], more), KeepNodes(rest[1..], more);
      next := aux.next;
    }

    /** The recursive call: among the others only the process `pid` itself may change. */
    method KillNode(aux: ProcessNode, pid: nat, ghost k: nat) returns (ghost more: set<nat>)
      requires Valid() && k < |nodes| && aux == nodes[k] && aux.process.id.parent == pid
      modifies this`ready, this`nodes, this`actualKilled, nodes`next, Everyone()`state, Everyone()`waitingPid
      decreases nextPid - pid, 0
      ensures Valid() && nodes == KeepNodes(old(nodes), more)
      ensures forall n {:trigger n in nodes} :: n in nodes ==> n in old(nodes)
      ensures FallsWith(old(nodes), nodes, guard, Pid(aux), more)
      ensures actualKilled == (old(actualKilled) || currentPid in more)
      ensures aux.next == Head(KeepNodes(old(nodes)[k+1..], more))
      ensures forall n {:trigger n.process} :: n in nodes && n in old(nodes) && Pid(n) != pid ==>
          n.process.Value() == old(n.process.Value())
    {
      ghost var was := nodes;
      var ok;
      ghost var id;
      more, ok, id := KillInKernel(aux.process.id.pid);
      KeepNodesMembers(was, more);
      assert aux.process.id in NodeIds(was);
      assert ok by { assert Pid(was[k]) == Pid(aux); }
    }

    // ----- the same on the table -----

    /** kill_in_kernel: exactly the process and its doomed descendants leave the list, and the rest keep their order. */
    method KillProcess(pid: nat) returns (ok: bool)
      requires Valid()
      modifies this`ready, this`nodes, this`actualKilled, nodes`next, Everyone()`state, Everyone()`waitingPid
      ensures Valid() && AsTable() == Step(old(AsTable()), Kill(pid, guard))
      ensures ok <==> !LosesHead(old(AsTable()), Kill(pid, guard))
    {
      ghost var was, t := nodes, AsTable();
      ghost var gone, id;
      gone, ok, id := KillListed(pid, t.ps);
      HeadLostOnTable(was, gone, t, guard, pid);
      KillIsStep(was, gone, t, guard, pid, id);
    }

    method KillListed(pid: nat, ghost ps: seq<Proc>) returns (ghost gone: set<nat>, ok: bool, ghost id: Ident)
      requires Valid() && ps == View(nodes)
      modifies this`ready, this`nodes, this`actualKilled, nodes`next, Everyone()`state, Everyone()`waitingPid
      ensures Valid() && nodes == KeepNodes(old(nodes), gone) && FallsWith(old(nodes), nodes, guard, pid, gone)
      ensures ok <==> Spared(guard, pid) || !HeadLost(old(nodes), pid, gone)
      ensures IsFound(old(NodeIds(nodes)), pid, id)
      ensures forall i {:trigger old(nodes)[i]} :: 0 <= i < |old(nodes)| && Pid(old(nodes)[i]) !in gone ==>
        old(nodes)[i].process.Value() == KilledValue(guard, pid, id, ps[i])
    {
      ghost var was := nodes;
      gone, ok, id := KillInKernel(pid);
      KeepNodesMembers(was, gone);
    }

    /**
     end_process: the running process releases the parent that waits for it and leaves the list.  `ok` is false when
     the list, whose head the unlinking reads, is empty.
     */
    method EndProcess() returns (ok: bool)
      requires Valid()
      modifies this`ready, this`nodes, this`actualKilled, nodes`next, Everyone()`state, Everyone()`waitingPid
      ensures Valid() && AsTable() == Step(old(AsTable()), End) && actualKilled
      ensures ok <==> old(AsTable()).ps != []
    {
      ghost var was, t := nodes, AsTable();
      actualKilled := true;
      ghost var id;
      ok, id := LeaveList(t.ps);
      EndIsStep(was, t, id);
    }

    /** What end_process does to the list. */
    method LeaveList(ghost ps: seq<Proc>) returns (ok: bool, ghost id: Ident)
      requires Valid() && ps == View(nodes)
      modifies this`ready, this`nodes, nodes`next, Everyone()`state, Everyone()`waitingPid
      ensures Valid() && nodes == KeepNodes(old(nodes), {currentPid}) && (ok <==> old(nodes) != [])
      ensures IsFound(NodeIds(old(nodes)), currentPid, id)
      ensures forall i {:trigger old(nodes)[i]} :: 0 <= i < |old(nodes)| ==>
        old(nodes)[i].process.Value() == Released(ps[i], id)
    {
      var proc := GetProcessByPID(currentPid);
      id := proc.id;
      assert IsFound(NodeIds(nodes), currentPid, id);
      ReleaseParent(proc);
      ok := ready != null;
      if ok {
        Unlink(currentPid);
      }
    }

    /** block_process_in_kernel, up to the yield: the slice is cut short. */
    method BlockPidProcess(pid: nat)
      requires Valid()
      modifies this`timeslot, ProcessesOf(nodes)`state
      ensures Valid() && AsTable() == Step(old(AsTable()), BlockPid(pid)) && timeslot == 1
    {
      ghost var t := AsTable();
      BlockProcess(pid, t.ps);
      OneBlocks(t, pid, View(nodes));
    }

    method BlockProcess(pid: nat, ghost ps: seq<Proc>)
      requires Valid() && ps == View(nodes)
      modifies this`timeslot, ProcessesOf(nodes)`state
      ensures Valid() && timeslot == 1
      ensures forall i :: 0 <= i < |nodes| ==> View(nodes)[i] == if ps[i].id.pid == pid then Block(ps[i]) else ps[i]
    {
      timeslot := 1;
      BlockListed(pid, ps);
    }

    method BlockListed(pid: nat, ghost ps: seq<Proc>)
      requires Valid() && ps == View(nodes)
      modifies ProcessesOf(nodes)`state
      ensures Valid()
      ensures forall i :: 0 <= i < |nodes| ==> View(nodes)[i] == if ps[i].id.pid == pid then Block(ps[i]) else ps[i]
    {
      if ready != null {
        if ready.process.id.pid == pid {
          ready.process.state := BLOCKED;
        } else {
          var aux;
          ghost var k;
          aux, k := BeforePid(pid);
          assert nodes[k].next == Head(nodes[k+1..]);
          if aux.next != null {
            aux.next.process.state := BLOCKED;
          }
        }
      }
    }

    /** awake_process */
    method AwakePidProcess(pid: nat)
      requires Valid()
      modifies Everyone()`state
      ensures Valid() && AsTable() == Step(old(AsTable()), AwakePid(pid))
    {
      ghost var t := AsTable();
      AwakeProcess(pid);
      StepInPlace(t, AwakePid(pid), View(nodes));
    }

    /** waitpid_in_kernel, up to the yield. */
    method WaitPidInKernel(pid: nat)
      requires Valid()
      modifies this`timeslot, Everyone()`state, Everyone()`waitingPid
      ensures Valid() && AsTable() == Step(old(AsTable()), WaitPid(pid)) && timeslot == 1
    {
      ghost var t := AsTable();
      BlockWaiting(t, pid);
    }

    method BlockWaiting(ghost t: Table, pid: nat)
      requires Valid() && t == AsTable()
      modifies this`timeslot, Everyone()`state, Everyone()`waitingPid
      ensures Valid() && View(nodes) == Step(t, WaitPid(pid)).ps && timeslot == 1
    {
      ghost var mid := SetWaiting(pid, t.ps);
      BlockProcess(currentPid, mid);
      OneWaits(t, pid, mid, View(nodes));
    }

    method SetWaiting(pid: nat, ghost ps: seq<Proc>) returns (ghost mid: seq<Proc>)
      requires Valid() && ps == View(nodes)
      modifies Everyone()`waitingPid
      ensures Valid() && mid == View(nodes) && |mid| == |ps|
      ensures forall i :: 0 <= i < |mid| ==>
        mid[i] == if ps[i].id.pid == currentPid then ps[i].(waitingPid := pid) else ps[i]
    {
      var proc := GetProcessByPID(currentPid);
      proc.waitingPid := pid;
      mid := View(nodes);
    }

    /** CreateProcessAt_in_kernel with set_Process_ready: the new process goes to the end of the list. */
    method CreateProcess(front: bool) returns (pid: nat)
      requires Valid() && currentPid < nextPid
      modifies this`ready, this`nodes, this`nextPid, nodes`next
      ensures Valid() && pid == old(nextPid) && AsTable() == Step(old(AsTable()), Create(front))
    {
      pid := nextPid;
      AppendNewborn(front, AsTable());
      nextPid := pid + 1;
    }

    method AppendNewborn(front: bool, ghost t: Table)
      requires Valid() && currentPid < nextPid && t == AsTable()
      modifies this`ready, this`nodes, nodes`next
      ensures Chain(nodes, ready) && Family(nodes, nextPid + 1) && View(nodes) == Step(t, Create(front)).ps
    {
      ghost var was := nodes;
      var proc := new Process(Ident(nextPid, currentPid, front), State.READY, 0);
      SetProcessReady(proc);
      FamilyGrows(was, nodes, nextPid);
      NewLast(was, nodes, t, front);
    }

    /** set_Process_ready */
    method SetProcessReady(proc: Process)
      requires Valid()
      modifies this`ready, this`nodes, nodes`next
      ensures |nodes| == |old(nodes)| + 1 && nodes[..|nodes|-1] == old(nodes)
      ensures nodes[|nodes|-1].process == proc && Chain(nodes, ready)
    {
      var node := new ProcessNode(proc);
      if ready == null {
        ready := node;
      } else {
        var last := ready;
        ghost var k := 0;
        while last.next != null
          invariant 0 <= k < |nodes| && last == nodes[k]
          decreases |nodes| - k
        {
          assert nodes[k].next == Head(nodes[k+1..]);
          last, k := last.next, k + 1;
        }
        assert nodes[k].next == Head(nodes[k+1..]);
        last.next := node;
      }
      nodes := nodes + [node];
    }

    /** isTimeSlot: sleeps are counted down, and the slice ends every third tick. */
    method IsTimeSlot() returns (left: int)
      requires Valid()
      modifies this`timeslot, Everyone()`state, Everyone()`sleep
      ensures Valid() && AsTable() == Step(old(AsTable()), Timer)
      ensures left == old(timeslot) - 1 && timeslot == if left != 0 then left else 3
    {
      CountSleeps();
      left := CountSlice();
    }

    method CountSlice() returns (left: int)
      modifies this`timeslot
      ensures left == old(timeslot) - 1 && timeslot == if left != 0 then left else TIMESLOT
    {
      timeslot := timeslot - 1;
      left := timeslot;
      if left == 0 {
        timeslot := TIMESLOT;
      }
    }

    method CountSleep(node: ProcessNode, ghost k: nat, ghost ps: seq<Proc>)
      requires Valid() && k < |nodes| && node == nodes[k] && ps == View(nodes)
      modifies Everyone()`state, Everyone()`sleep
      ensures Valid() && View(nodes) == ps[k := TickOne(ps[k])]
    {
      assert ps[k] == node.process.Value();
      if node.process.sleep > 0 {
        TickSleep(node, k, ps);
        if node.process.sleep == 0 {
          AwakeOne(node.process.id.pid, k, View(nodes));
        }
      }
    }

    method TickSleep(node: ProcessNode, ghost k: nat, ghost ps: seq<Proc>)
      requires Valid() && k < |nodes| && node == nodes[k] && ps == View(nodes) && node.process.sleep > 0
      modifies Everyone()`sleep
      ensures Valid() && View(nodes) == ps[k := ps[k].(sleep := ps[k].sleep - 1)]
      ensures node.process.sleep == ps[k].sleep - 1
    {
      assert ps[k] == node.process.Value();
      node.process.sleep := node.process.sleep - 1;
    }

    method AwakeOne(pid: nat, ghost k: nat, ghost ps: seq<Proc>)
      requires Valid() && k < |nodes| && Pid(nodes[k]) == pid && ps == View(nodes)
      modifies Everyone()`state
      ensures Valid() && View(nodes) == ps[k := Awoken(ps[k])]
    {
      AwakeProcess(pid);
    }

    method CountSleeps()
      requires Valid()
      modifies Everyone()`state, Everyone()`sleep
      ensures Valid() && AsTable() == Step(old(AsTable()), Timer)
    {
      ghost var t := AsTable();
      ghost var now := CountAll(t.ps);
      AllTick(t, now);
    }

    /** The loop of isTimeSlot. */
    method CountAll(ghost ps: seq<Proc>) returns (ghost now: seq<Proc>)
      requires Valid() && ps == View(nodes)
      modifies Everyone()`state, Everyone()`sleep
      ensures Valid() && now == View(nodes) && |now| == |ps| && forall i :: 0 <= i < |now| ==> now[i] == TickOne(ps[i])
    {
      var node := ready;
      ghost var k := 0;
      now := ps;
      while node != null
        invariant Valid() && 0 <= k <= |nodes| && node == Head(nodes[k..]) && now == View(nodes)
        invariant forall i :: 0 <= i < |now| ==> now[i] == if i < k then TickOne(ps[i]) else ps[i]
        decreases |nodes| - k
      {
        assert nodes[k] == node && nodes[k].next == Head(nodes[k+1..]);
        CountSleep(node, k, now);
        now := now[k := TickOne(now[k])];
        node, k := node.next, k + 1;
      }
    }

    /** sleep, up to the yield. */
    method Sleep(secs: nat)
      requires Valid()
      modifies this`timeslot, Everyone()`state, Everyone()`sleep
      ensures Valid() && AsTable() == Step(old(AsTable()), SleepFor(secs)) && timeslot == 1
    {
      ghost var t := AsTable();
      BlockAsleep(t, secs);
    }

    method BlockAsleep(ghost t: Table, secs: nat)
      requires Valid() && t == AsTable()
      modifies this`timeslot, Everyone()`state, Everyone()`sleep
      ensures Valid() && View(nodes) == Step(t, SleepFor(secs)).ps && timeslot == 1
    {
      ghost var mid := SetSleep(18 * secs, t.ps);
      BlockProcess(currentPid, mid);
      OneSleeps(t, secs, mid, View(nodes));
    }

    method SetSleep(ticks: nat, ghost ps: seq<Proc>) returns (ghost mid: seq<Proc>)
      requires Valid() && ps == View(nodes)
      modifies Everyone()`sleep
      ensures Valid() && mid == View(nodes) && |mid| == |ps|
      ensures forall i :: 0 <= i < |mid| ==>
        mid[i] == if ps[i].id.pid == currentPid then ps[i].(sleep := ticks) else ps[i]
    {
      var proc := GetProcessByPID(currentPid);
      proc.sleep := ticks;
      mid := View(nodes);
    }
  }

  lemma FamilyGrows(was: seq<ProcessNode>, nodes: seq<ProcessNode>, nextPid: nat)
    requires |nodes| == |was| + 1 && nodes[..|was|] == was && Family(was, nextPid)
    requires Pid(nodes[|was|]) == nextPid > 0 && 0 <= nodes[|was|].process.id.parent < nextPid
    ensures Family(nodes, nextPid + 1)
  {
    assert forall i :: 0 <= i < |was| ==> was[i] == nodes[i] && nodes[i] in was;
  }

  /** A newcomer at the end of the list is a creation. */
  lemma NewLast(was: seq<ProcessNode>, nodes: seq<ProcessNode>, t: Table, front: bool)
    requires t.ps == View(was) && |nodes| == |was| + 1 && nodes[..|was|] == was
    requires nodes[|was|].process.Value() == Newborn(t, front)
    ensures View(nodes) == Step(t, Create(front)).ps
  {
    NobodyLeaves(t, Create(front));
    assert Changed(t, Create(front)) == t.ps;
    assert forall i :: 0 <= i < |was| ==> nodes[i] == was[i];
    assert View(nodes) == t.ps + [Newborn(t, front)];
  }

  lemma EndIsStep(was: seq<ProcessNode>, t: Table, id: Ident)
    requires RisingPids(was) && IsFound(NodeIds(was), t.current, id)
    requires |t.ps| == |was| && forall i :: 0 <= i < |was| ==> t.ps[i].id == was[i].process.id
    requires forall i :: 0 <= i < |was| && Pid(was[i]) != t.current ==> was[i].process.Value() == Released(t.ps[i], id)
    ensures View(KeepNodes(was, {t.current})) == Step(t, End).ps
  {
    SameIds(was, t.ps);
    EndValues(t, id);
    EndLeaving(was, t);
    MatchesStep(was, {t.current}, t, End);
  }

  lemma EndValues(t: Table, id: Ident)
    requires IsFound(Ids(t.ps), t.current, id)
    ensures forall i :: 0 <= i < |t.ps| ==> Changed(t, End)[i] == Released(t.ps[i], id)
  {
    forall i | 0 <= i < |t.ps| ensures Changed(t, End)[i] == Released(t.ps[i], id) {
      FoundIsAfter(t, id, t.ps[i]);
    }
  }

  lemma EndLeaving(was: seq<ProcessNode>, t: Table)
    ensures SameLeave(was, {t.current}, Leaving(t, End))
  {
  }

  lemma FoundIsAfter(t: Table, id: Ident, p: Proc)
    requires IsFound(Ids(t.ps), t.current, id)
    ensures After(t, End, p) == Released(p, id)
  {
  }

  lemma AllTick(t: Table, now: seq<Proc>)
    requires |now| == |t.ps| && forall i :: 0 <= i < |now| ==> now[i] == TickOne(t.ps[i])
    ensures now == Step(t, Timer).ps
  {
    StepInPlace(t, Timer, now);
  }

  lemma OneBlocks(t: Table, pid: nat, now: seq<Proc>)
    requires |now| == |t.ps|
    requires forall i :: 0 <= i < |now| ==> now[i] == if t.ps[i].id.pid == pid then Block(t.ps[i]) else t.ps[i]
    ensures now == Step(t, BlockPid(pid)).ps
  {
    StepInPlace(t, BlockPid(pid), now);
  }

  lemma OneWaits(t: Table, pid: nat, mid: seq<Proc>, now: seq<Proc>)
    requires |now| == |mid| == |t.ps|
    requires forall i :: 0 <= i < |mid| ==>
      mid[i] == if t.ps[i].id.pid == t.current then t.ps[i].(waitingPid := pid) else t.ps[i]
    requires forall i :: 0 <= i < |now| ==> now[i] == if mid[i].id.pid == t.current then Block(mid[i]) else mid[i]
    ensures now == Step(t, WaitPid(pid)).ps
  {
    StepInPlace(t, WaitPid(pid), now);
  }

  lemma OneSleeps(t: Table, secs: nat, mid: seq<Proc>, now: seq<Proc>)
    requires |now| == |mid| == |t.ps|
    requires forall i :: 0 <= i < |mid| ==>
      mid[i] == if t.ps[i].id.pid == t.current then t.ps[i].(sleep := 18 * secs) else t.ps[i]
    requires forall i :: 0 <= i < |now| ==> now[i] == if mid[i].id.pid == t.current then Block(mid[i]) else mid[i]
    ensures now == Step(t, SleepFor(secs)).ps
  {
    StepInPlace(t, SleepFor(secs), now);
  }

  /** A step in which nobody comes or goes. */
  lemma StepInPlace(t: Table, e: Event, now: seq<Proc>)
    requires !e.Create? && !e.End? && !e.Kill?
    requires |now| == |t.ps| && forall i :: 0 <= i < |now| ==> now[i] == After(t, e, t.ps[i])
    ensures now == Step(t, e).ps
  {
    NobodyLeaves(t, e);
    assert now == Changed(t, e);
  }

  // ----- what the walk of kill keeps -----

  ghost predicate AllDoomed(nodes: seq<ProcessNode>, g: Guard, pid: nat, gone: set<nat>) {
    forall q :: q in gone ==> IsDoomed(NodeIds(nodes), g, pid, q)
  }

  /** No process that kill does not spare outlives its parent. */
  ghost predicate NoneSurvives(nodes: seq<ProcessNode>, g: Guard, gone: set<nat>) {
    forall i :: 0 <= i < |nodes| && !Spared(g, Pid(nodes[i])) ==> nodes[i].process.id.parent !in gone
  }

  ghost predicate NoChildren(nodes: seq<ProcessNode>, g: Guard, pid: nat) {
    forall i :: 0 <= i < |nodes| && !Spared(g, Pid(nodes[i])) ==> nodes[i].process.id.parent != pid
  }

  /** `gone` is doomed with `pid`, holds it, and leaves no orphan that kill does not spare. */
  ghost predicate FallsWith(was: seq<ProcessNode>, left: seq<ProcessNode>, g: Guard, pid: nat, gone: set<nat>) {
    if Spared(g, pid) then gone == {}
    else pid in gone && AllDoomed(was, g, pid, gone) && NoneSurvives(left, g, gone)
  }

  /** What kill does to a process that stays, `id` being the identity found for the pid. */
  ghost function KilledValue(g: Guard, pid: nat, id: Ident, was: Proc): Proc {
    if Spared(g, pid) then was else Released(was, id)
  }

  /** What a kill leaves of the list; `ok` says that it had a head left to read. */
  ghost predicate Fell(was: seq<ProcessNode>, left: seq<ProcessNode>, g: Guard, pid: nat, gone: set<nat>, ok: bool) {
    && left == KeepNodes(was, gone) && FallsWith(was, left, g, pid, gone)
    && (ok <==> Spared(g, pid) || !HeadLost(was, pid, gone))
  }

  /** The node of the process killed points to what is left of the list behind it. */
  ghost predicate PointsOn(was: seq<ProcessNode>, pid: nat, gone: set<nat>)
    reads was`next
  {
    forall k {:trigger was[k]} :: 0 <= k < |was| && Pid(was[k]) == pid ==>
      was[k].next == Head(KeepNodes(was[k+1..], gone))
  }

  /** The identity GetProcessByPID answers with; idle's is not in the foreground. */
  ghost predicate IsFound(ids: set<Ident>, pid: nat, id: Ident) {
    && (forall c :: c in ids && c.pid == pid ==> id == c)
    && ((forall c :: c in ids ==> c.pid != pid) ==> !id.foreground)
  }

  /** Among the listed processes exactly the doomed fell. */
  lemma GoneIsDoomed(was: seq<ProcessNode>, g: Guard, pid: nat, gone: set<nat>)
    requires FallsWith(was, KeepNodes(was, gone), g, pid, gone) && !Spared(g, pid)
    ensures forall i :: 0 <= i < |was| ==> (Pid(was[i]) in gone <==> IsDoomed(NodeIds(was), g, pid, Pid(was[i])))
  {
    forall m | m in NodeIds(was) && !Spared(g, m.pid) && 0 <= m.parent && (m.parent as nat) in gone
      ensures m.pid in gone
    {
      OrphanFell(was, g, gone, m);
    }
    forall i | 0 <= i < |was| && IsDoomed(NodeIds(was), g, pid, Pid(was[i])) ensures Pid(was[i]) in gone {
      ClosedHoldsDoomed(NodeIds(was), g, pid, gone, Pid(was[i]));
    }
  }

  lemma OrphanFell(was: seq<ProcessNode>, g: Guard, gone: set<nat>, m: Ident)
    requires NoneSurvives(KeepNodes(was, gone), g, gone)
    requires m in NodeIds(was) && !Spared(g, m.pid) && 0 <= m.parent && (m.parent as nat) in gone
    ensures m.pid in gone
  {
    KeepNodesMembers(was, gone);
    var i :| 0 <= i < |was| && was[i].process.id == m;
    if m.pid !in gone {
      assert false;
    }
  }

  lemma KilledValueIsAfter(t: Table, g: Guard, pid: nat, id: Ident, p: Proc)
    requires IsFound(Ids(t.ps), pid, id)
    ensures KilledValue(g, pid, id, p) == After(t, Kill(pid, g), p)
  {
  }

  lemma KillIsStep(was: seq<ProcessNode>, gone: set<nat>, t: Table, g: Guard, pid: nat, id: Ident)
    requires FallsWith(was, KeepNodes(was, gone), g, pid, gone) && IsFound(NodeIds(was), pid, id)
    requires |t.ps| == |was| && forall i :: 0 <= i < |was| ==> t.ps[i].id == was[i].process.id
    requires forall i :: 0 <= i < |was| && Pid(was[i]) !in gone ==>
      was[i].process.Value() == KilledValue(g, pid, id, t.ps[i])
    ensures View(KeepNodes(was, gone)) == Step(t, Kill(pid, g)).ps
  {
    SameIds(was, t.ps);
    KillValues(t, g, pid, id);
    KillLeaving(was, gone, t, g, pid);
    MatchesStep(was, gone, t, Kill(pid, g));
  }

  lemma KillLeaving(was: seq<ProcessNode>, gone: set<nat>, t: Table, g: Guard, pid: nat)
    requires FallsWith(was, KeepNodes(was, gone), g, pid, gone) && NodeIds(was) == Ids(t.ps)
    ensures SameLeave(was, gone, Leaving(t, Kill(pid, g)))
  {
    if !Spared(g, pid) {
      GoneIsDoomed(was, g, pid, gone);
    }
  }

  /** The nodes that are gone are the processes that leave. */
  ghost predicate SameLeave(was: seq<ProcessNode>, gone: set<nat>, leaving: iset<nat>) {
    forall i :: 0 <= i < |was| ==> (Pid(was[i]) in gone <==> Pid(was[i]) in leaving)
  }

  /** A step, seen on the list. */
  lemma MatchesStep(was: seq<ProcessNode>, gone: set<nat>, t: Table, e: Event)
    requires |t.ps| == |was| && forall i :: 0 <= i < |was| ==> t.ps[i].id == was[i].process.id
    requires forall i :: 0 <= i < |was| && Pid(was[i]) !in gone ==> was[i].process.Value() == Changed(t, e)[i]
    requires SameLeave(was, gone, Leaving(t, e)) && !e.Create?
    ensures View(KeepNodes(was, gone)) == Step(t, e).ps
  {
    KeepMatches(was, gone, Changed(t, e), Leaving(t, e));
    NoNewcomer(t, e);
  }

  lemma KillValues(t: Table, g: Guard, pid: nat, id: Ident)
    requires IsFound(Ids(t.ps), pid, id)
    ensures forall i :: 0 <= i < |t.ps| ==> Changed(t, Kill(pid, g))[i] == KilledValue(g, pid, id, t.ps[i])
  {
    forall i | 0 <= i < |t.ps| ensures Changed(t, Kill(pid, g))[i] == KilledValue(g, pid, id, t.ps[i]) {
      KilledValueIsAfter(t, g, pid, id, t.ps[i]);
    }
  }

  /** All these pids fall with an unlisted one. */
  ghost predicate AllFall(ids: set<Ident>, g: Guard, pid: nat, pids: seq<nat>) {
    forall i :: 0 <= i < |pids| ==> pids[i] != pid && IsDoomed(ids, g, pid, pids[i])
  }

  lemma HeadLostOnTable(was: seq<ProcessNode>, gone: set<nat>, t: Table, g: Guard, pid: nat)
    requires FallsWith(was, KeepNodes(was, gone), g, pid, gone)
    requires |t.ps| == |was| && forall i :: 0 <= i < |was| ==> t.ps[i].id == was[i].process.id
    ensures LosesHead(t, Kill(pid, g)) <==> !Spared(g, pid) && HeadLost(was, pid, gone)
  {
    if !Spared(g, pid) {
      SameIds(was, t.ps);
      var pids := seq(|was|, i requires 0 <= i < |was| => Pid(was[i]));
      HeadLostInList(was, gone, NodeIds(was), g, pid, pids);
      HeadLostInTable(t, g, pid, pids);
    }
  }

  lemma HeadLostInList(was: seq<ProcessNode>, gone: set<nat>, ids: set<Ident>, g: Guard, pid: nat, pids: seq<nat>)
    requires FallsWith(was, KeepNodes(was, gone), g, pid, gone) && !Spared(g, pid) && ids == NodeIds(was)
    requires |pids| == |was| && forall i :: 0 <= i < |was| ==> pids[i] == Pid(was[i])
    ensures HeadLost(was, pid, gone) <==> AllFall(ids, g, pid, pids)
  {
    GoneIsDoomed(was, g, pid, gone);
  }

  lemma HeadLostInTable(t: Table, g: Guard, pid: nat, pids: seq<nat>)
    requires !Spared(g, pid)
    requires |pids| == |t.ps| && forall i :: 0 <= i < |t.ps| ==> pids[i] == t.ps[i].id.pid
    ensures LosesHead(t, Kill(pid, g)) <==> AllFall(Ids(t.ps), g, pid, pids)
  {
    var e := Kill(pid, g);
    if LosesHead(t, e) {
      forall i | 0 <= i < |pids| ensures pids[i] != pid && IsDoomed(Ids(t.ps), g, pid, pids[i]) {
        assert t.ps[i] in t.ps;
      }
    }
    if AllFall(Ids(t.ps), g, pid, pids) {
      forall p | p in t.ps ensures Leaves(t, e, p.id.pid) && p.id.pid != pid {
        var i :| 0 <= i < |t.ps| && t.ps[i] == p;
        assert pids[i] == p.id.pid;
      }
    }
  }

  lemma SameIds(nodes: seq<ProcessNode>, ps: seq<Proc>)
    requires |ps| == |nodes| && forall i :: 0 <= i < |ps| ==> ps[i].id == nodes[i].process.id
    ensures NodeIds(nodes) == Ids(ps) && (RisingPids(nodes) <==> Rising(ps))
  {
    forall id | id in NodeIds(nodes) ensures id in Ids(ps) {
      var i :| 0 <= i < |nodes| && nodes[i].process.id == id;
      assert ps[i].id == id;
    }
    forall id | id in Ids(ps) ensures id in NodeIds(nodes) {
      var i :| 0 <= i < |ps| && ps[i].id == id;
      assert nodes[i].process.id == id;
    }
    assert forall i :: 0 <= i < |ps| ==> ps[i].id.pid == Pid(nodes[i]);
  }

  /** Everybody listed falls with an unlisted process, and leaves a list without a head. */
  ghost predicate HeadLost(was: seq<ProcessNode>, pid: nat, gone: set<nat>) {
    forall i :: 0 <= i < |was| ==> Pid(was[i]) in gone && Pid(was[i]) != pid
  }

  lemma {:induction false} KeptNone(nodes: seq<ProcessNode>, gone: set<nat>)
    ensures KeepNodes(nodes, gone) == [] <==> forall i :: 0 <= i < |nodes| ==> Pid(nodes[i]) in gone
  {
    if nodes != [] {
      KeptNone(nodes[1..], gone);
      assert forall i :: 0 < i < |nodes| ==> nodes[i] == nodes[1..][i-1];
    }
  }

  lemma NothingLeft(was: seq<ProcessNode>, pid: nat, gone: set<nat>)
    requires pid !in gone
    ensures KeepNodes(was, gone) == [] <==> HeadLost(was, pid, gone + {pid})
  {
    KeptNone(was, gone);
  }

  /** The walk stands between `done` and `rest`; `gone` is who fell so far. */
  ghost predicate Walk(was: seq<ProcessNode>, gone: set<nat>, done: seq<ProcessNode>, rest: seq<ProcessNode>, g: Guard,
      pid: nat)
  {
    && done + rest == KeepNodes(was, gone)
    && (forall i :: 0 <= i < |done + rest| ==> (done + rest)[i] in was)
    && pid !in gone && AllDoomed(was, g, pid, gone)
    && NoneSurvives(done + rest, g, gone) && NoChildren(done, g, pid)
  }

  lemma WalkStarts(was: seq<ProcessNode>, g: Guard, pid: nat)
    ensures Walk(was, {}, [], was, g, pid)
  {
    KeepNodesMembers(was, {});
    assert [] + was == was;
  }

  lemma WalkSkips(was: seq<ProcessNode>, gone: set<nat>, done: seq<ProcessNode>, rest: seq<ProcessNode>, g: Guard,
      pid: nat)
    requires Walk(was, gone, done, rest, g, pid) && rest != [] && rest[0].process.id.parent != pid
    ensures done + rest == (done + [rest[0]]) + rest[1..]
    ensures Walk(was, gone, done + [rest[0]], rest[1..], g, pid)
  {
    assert done + rest == (done + [rest[0]]) + rest[1..];
  }

  lemma WalkKills(was: seq<ProcessNode>, gone: set<nat>, done: seq<ProcessNode>, rest: seq<ProcessNode>,
      more: set<nat>, g: Guard, pid: nat)
    requires Walk(was, gone, done, rest, g, pid) && rest != []
    requires rest[0].process.id.parent == pid && pid < Pid(rest[0])
    requires FallsWith(done + rest, KeepNodes(done + rest, more), g, Pid(rest[0]), more)
    ensures KeepNodes(done + rest, more) == KeepNodes(done + [rest[0]], more) + KeepNodes(rest[1..], more)
    ensures Walk(was, gone + more, KeepNodes(done + [rest[0]], more), KeepNodes(rest[1..], more), g, pid)
    ensures |KeepNodes(rest[1..], more)| < |rest|
  {
    var before, k, c := done + rest, |done|, rest[0];
    WalkSplits(was, gone, done + [c], rest[1..], more);
    assert before == (done + [c]) + rest[1..] && before[k] == c && before[..k] == done && before[..k+1] == done + [c];
    if Spared(g, Pid(c)) {
      NoneGone(before, {});
      assert gone + more == gone;
    } else {
      WalkDooms(was, gone, c, more, g, pid);
    }
    WalkLeaves(before, k, gone, more, g, pid);
  }

  /** One child killed during the walk: the list splits where the walk stands. */
  lemma WalkSplits(was: seq<ProcessNode>, gone: set<nat>, done: seq<ProcessNode>, rest: seq<ProcessNode>,
      more: set<nat>)
    requires done + rest == KeepNodes(was, gone)
    ensures KeepNodes(done + rest, more) == KeepNodes(done, more) + KeepNodes(rest, more) == KeepNodes(was, gone + more)
    ensures forall i :: 0 <= i < |KeepNodes(done + rest, more)| ==> KeepNodes(done + rest, more)[i] in was
    ensures |KeepNodes(rest, more)| <= |rest|
  {
    KeepConcat(done, rest, more);
    KeepTwice(was, gone, more);
    KeepNodesMembers(was, gone + more);
    KeepNodesMembers(rest, more);
  }

  /** Who falls with the child falls with the process. */
  lemma WalkDooms(was: seq<ProcessNode>, gone: set<nat>, c: ProcessNode, more: set<nat>, g: Guard, pid: nat)
    requires c in KeepNodes(was, gone) && c in was && c.process.id.parent == pid && pid < Pid(c) && !Spared(g, Pid(c))
    requires AllDoomed(KeepNodes(was, gone), g, Pid(c), more)
    ensures pid !in more && AllDoomed(was, g, pid, more)
  {
    var before := KeepNodes(was, gone);
    KeepNodesMembers(was, gone);
    assert NodeIds(before) <= NodeIds(was);
    assert c.process.id in NodeIds(was);
    assert IsDoomed(NodeIds(was), g, pid, Pid(c));
    forall q | q in more ensures pid != q && IsDoomed(NodeIds(was), g, pid, q) {
      DoomedAbove(NodeIds(before), g, Pid(c), q);
      DoomedWithChild(NodeIds(before), NodeIds(was), g, pid, Pid(c), q);
    }
  }

  /** The part of the list behind the walk holds no child but those kill spares. */
  lemma WalkLeaves(before: seq<ProcessNode>, k: nat, gone: set<nat>, more: set<nat>, g: Guard, pid: nat)
    requires k < |before| && NoneSurvives(before, g, gone) && NoChildren(before[..k], g, pid)
    requires !Spared(g, Pid(before[k])) ==> Pid(before[k]) in more
    requires NoneSurvives(KeepNodes(before, more), g, more)
    ensures NoneSurvives(KeepNodes(before, more), g, gone + more)
    ensures NoChildren(KeepNodes(before[..k+1], more), g, pid)
  {
    KeepNodesMembers(before, more);
    KeepNodesMembers(before[..k+1], more);
    var kept := KeepNodes(before[..k+1], more);
    forall i | 0 <= i < |kept| && !Spared(g, Pid(kept[i])) ensures kept[i].process.id.parent != pid {
      var j :| 0 <= j < k + 1 && before[j] == kept[i];
      if j < k {
        assert before[..k][j] == kept[i];
      }
    }
  }

  /** After the walk, the process itself. */
  lemma KillEnds(was: seq<ProcessNode>, gone: set<nat>, left: seq<ProcessNode>, pid: nat, g: Guard)
    requires Walk(was, gone, left, [], g, pid) && !Spared(g, pid)
    ensures left == KeepNodes(was, gone)
    ensures KeepNodes(left, {pid}) == KeepNodes(was, gone + {pid})
    ensures FallsWith(was, KeepNodes(left, {pid}), g, pid, gone + {pid})
    ensures left == [] ==> KeepNodes(left, {pid}) == []
    ensures forall i :: 0 <= i < |KeepNodes(left, {pid})| ==> KeepNodes(left, {pid})[i] in left
  {
    assert left + [] == left;
    KeepTwice(was, gone, {pid});
    KeepNodesMembers(was, gone);
    KeepNodesMembers(left, {pid});
  }

  /** Where the killed process stood, its node still points to the rest of the list. */
  lemma RootPlace(was: seq<ProcessNode>, k: nat, gone: set<nat>, left: seq<ProcessNode>)
    requires RisingPids(was) && k < |was| && Pid(was[k]) !in gone
    requires left == KeepNodes(was, gone)
    ensures left == KeepNodes(was[..k], gone) + [was[k]] + KeepNodes(was[k+1..], gone)
    ensures KeepNodes(was[k+1..], gone + {Pid(was[k])}) == KeepNodes(was[k+1..], gone)
  {
    RootSplits(was, k, gone);
    RestStays(was, k, gone);
  }

  lemma RootSplits(was: seq<ProcessNode>, k: nat, gone: set<nat>)
    requires k < |was| && Pid(was[k]) !in gone
    ensures KeepNodes(was, gone) == KeepNodes(was[..k], gone) + [was[k]] + KeepNodes(was[k+1..], gone)
  {
    var here, rest := [was[k]], was[k+1..];
    assert was == was[..k] + (here + rest);
    KeepConcat(was[..k], here + rest, gone);
    KeepConcat(here, rest, gone);
    assert KeepNodes(here, gone) == here + KeepNodes(here[1..], gone) == here;
  }

  lemma RestStays(was: seq<ProcessNode>, k: nat, gone: set<nat>)
    requires RisingPids(was) && k < |was|
    ensures KeepNodes(was[k+1..], gone + {Pid(was[k])}) == KeepNodes(was[k+1..], gone)
  {
    var rest := was[k+1..];
    NoneGone(rest, {Pid(was[k])});
    KeepTwice(rest, {Pid(was[k])}, gone);
    assert {Pid(was[k])} + gone == gone + {Pid(was[k])};
  }

  lemma {:induction false} NoneGone(nodes: seq<ProcessNode>, gone: set<nat>)
    requires forall i :: 0 <= i < |nodes| ==> Pid(nodes[i]) !in gone
    ensures KeepNodes(nodes, gone) == nodes
  {
    if nodes != [] {
      NoneGone(nodes[1..], gone);
    }
  }

  lemma {:induction false} OneGone(nodes: seq<ProcessNode>, k: nat, pid: nat)
    requires k < |nodes| && forall i :: 0 <= i < |nodes| ==> (Pid(nodes[i]) == pid <==> i == k)
    ensures KeepNodes(nodes, {pid}) == nodes[..k] + nodes[k+1..]
  {
    if k == 0 {
      NoneGone(nodes[1..], {pid});
    } else {
      OneGone(nodes[1..], k - 1, pid);
      assert nodes[..k] == [nodes[0]] + nodes[1..][..k-1];
      assert nodes[k+1..] == nodes[1..][k..];
    }
  }

  lemma OneLess(nodes: seq<ProcessNode>, k: nat)
    requires RisingPids(nodes) && k < |nodes|
    ensures KeepNodes(nodes, {Pid(nodes[k])}) == nodes[..k] + nodes[k+1..]
  {
    OneGone(nodes, k, Pid(nodes[k]));
  }

  /** Taking node `k + 1` out of a chain whose node `k` already points past it. */
  lemma SpliceChain(nodes: seq<ProcessNode>, k: nat)
    requires k + 1 < |nodes|
    requires forall i {:trigger nodes[i].next} :: 0 <= i < |nodes| ==>
        nodes[i].next == Head(nodes[if i == k then i + 2 else i + 1..])
    ensures var less := nodes[..k+1] + nodes[k+2..];
      forall i {:trigger less[i].next} :: 0 <= i < |less| ==> less[i].next == Head(less[i+1..])
  {
    var less := nodes[..k+1] + nodes[k+2..];
    forall i {:trigger less[i].next} | 0 <= i < |less| ensures less[i].next == Head(less[i+1..]) {
      assert less[i] == nodes[if i <= k then i else i + 1];
    }
  }
}
