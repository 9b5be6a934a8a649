/**
 The plain lock that mtask2's mutexes and monitors implement: at most one holder, and a queue of waiters
 that inherit the lock directly.
 */
module Locks {
  import opened Base
  import opened WaitOrder

  datatype Lock = Lock(holder: Option<Tid>, queue: seq<Entry<Tid>>, clock: nat)

  /**
   Who may use one side of a pipe or message queue: anybody at any time, one task at a time by agreement, or whoever
   gets its mutex.  One task at a time looks like a mutex that always finds itself free.
   */
  datatype Access = Open | Single | Mutexed

  const FREE := Lock(None, [], 0)

  ghost predicate ValidLock(l: Lock) {
    && WaitOrder.Valid(l.queue, l.clock)
    && (l.holder.None? ==> l.queue == [])
    && (l.holder.Some? ==> l.holder.value !in Names(l.queue))
  }

  /** Take the lock if it is free; otherwise give up at once (`cond`) or queue. */
  function Acquire(l: Lock, t: Tid, prio: nat, cond: bool): Lock {
    if l.holder.None? then l.(holder := Some(t))
    else if cond then l
    else l.(queue := Insert(l.queue, Entry(t, prio, l.clock)), clock := l.clock + 1)
  }

  /** Hand the lock to the most urgent waiter, or free it. */
  function Release(l: Lock): Lock {
    if l.queue == [] then l.(holder := None)
    else l.(holder := Some(Last(l.queue).who), queue := Front(l.queue))
  }

  /** A waiter leaves the queue empty-handed. */
  function GiveUp(l: Lock, t: Tid): Lock {
    l.(queue := Without(l.queue, t))
  }

  /** A waiter whose priority changes is queued anew. */
  function Reprioritize(l: Lock, t: Tid, prio: nat): Lock {
    l.(queue := Requeue(l.queue, t, prio, l.clock), clock := l.clock + 1)
  }

  lemma AcquireValid(l: Lock, t: Tid, prio: nat, cond: bool)
    requires ValidLock(l) && t !in Names(l.queue) && l.holder != Some(t)
    ensures ValidLock(Acquire(l, t, prio, cond))
    ensures Names(Acquire(l, t, prio, cond).queue)
         == if l.holder.Some? && !cond then Names(l.queue) + {t} else Names(l.queue)
  {
    if l.holder.Some? && !cond {
      InsertKeepsValid(l.queue, Entry(t, prio, l.clock), l.clock);
    }
  }

  lemma ReleaseValid(l: Lock)
    requires ValidLock(l)
    ensures ValidLock(Release(l))
    ensures l.queue == [] ==> Release(l).holder == None && Names(Release(l).queue) == Names(l.queue)
    ensures l.queue != [] ==>
      && Release(l).holder == Some(Last(l.queue).who) && Last(l.queue).who in Names(l.queue)
      && Names(Release(l).queue) == Names(l.queue) - {Last(l.queue).who}
  {
    if l.queue != [] {
      FrontKeepsValid(l.queue, l.clock);
    }
  }

  lemma GiveUpValid(l: Lock, t: Tid)
    requires ValidLock(l)
    ensures ValidLock(GiveUp(l, t)) && Names(GiveUp(l, t).queue) == Names(l.queue) - {t}
  {
    WithoutKeepsValid(l.queue, t, l.clock);
  }

  lemma ReprioritizeValid(l: Lock, t: Tid, prio: nat)
    requires ValidLock(l)
    ensures ValidLock(Reprioritize(l, t, prio)) && Names(Reprioritize(l, t, prio).queue) == Names(l.queue)
  {
    RequeueKeepsValid(l.queue, t, prio, l.clock);
  }

  lemma FedAcquire(l: Lock, t: Tid, prio: nat, cond: bool)
    ensures Fed(l.queue, Acquire(l, t, prio, cond).queue, t, prio)
  {
    FedInsert(l.queue, Entry(t, prio, l.clock));
  }

  lemma FedRelease(l: Lock, t: Tid, prio: nat)
    ensures Fed(l.queue, Release(l).queue, t, prio)
  {
    if l.queue != [] { FedFront(l.queue, t, prio); }
  }

  lemma FedGiveUp(l: Lock, u: Tid, t: Tid, prio: nat)
    ensures Fed(l.queue, GiveUp(l, u).queue, t, prio)
  {
    FedWithout(l.queue, u, t, prio);
  }

  // ----- who is where around a lock -----

  /** A task is elsewhere, has asked for the lock and not come through yet, or is past it. */
  datatype Zone = Away | Gate | Inside

  /**
   The lock does its work: only its holder is inside, and everyone at the gate is queued or has already
   been given the lock.
   */
  ghost predicate Guards(l: Lock, z: Tid -> Zone) {
    && ValidLock(l)
    && (forall t: Tid :: z(t) == Inside ==> l.holder == Some(t))
    && (forall t: Tid :: l.holder == Some(t) ==> z(t) != Away)
    && (forall t: Tid :: t in Names(l.queue) ==> z(t) == Gate)
    && (forall t: Tid :: z(t) == Gate ==> t in Names(l.queue) || l.holder == Some(t))
  }

  ghost predicate MovesOnly(z: Tid -> Zone, z': Tid -> Zone, t: Tid) {
    forall u: Tid :: u != t ==> z'(u) == z(u)
  }

  lemma GuardsSame(l: Lock, z: Tid -> Zone, z': Tid -> Zone)
    requires Guards(l, z) && forall u: Tid :: z'(u) == z(u)
    ensures Guards(l, z')
  {
    assert forall t: Tid :: t in Names(l.queue) ==> z'(t) == Gate;
  }

  lemma GuardsArrive(l: Lock, z: Tid -> Zone, z': Tid -> Zone, t: Tid, prio: nat)
    requires Guards(l, z) && MovesOnly(z, z', t) && z(t) == Away && z'(t) == Gate
    ensures Guards(Acquire(l, t, prio, false), z')
  {
    AcquireValid(l, t, prio, false);
  }

  lemma GuardsPass(l: Lock, z: Tid -> Zone, z': Tid -> Zone, t: Tid)
    requires Guards(l, z) && MovesOnly(z, z', t) && l.holder == Some(t) && z'(t) == Inside
    ensures Guards(l, z')
  {
  }

  lemma GuardsDepart(l: Lock, z: Tid -> Zone, z': Tid -> Zone, t: Tid)
    requires Guards(l, z) && MovesOnly(z, z', t) && z(t) == Inside && z'(t) == Away
    ensures Guards(Release(l), z')
  {
    ReleaseValid(l);
  }

  lemma GuardsGiveUp(l: Lock, z: Tid -> Zone, z': Tid -> Zone, t: Tid)
    requires Guards(l, z) && MovesOnly(z, z', t) && t in Names(l.queue) && z'(t) == Away
    ensures Guards(GiveUp(l, t), z')
  {
    GiveUpValid(l, t);
  }

  lemma GuardsRequeue(l: Lock, z: Tid -> Zone, z': Tid -> Zone, t: Tid, prio: nat)
    requires Guards(l, z) && forall u: Tid :: z'(u) == z(u)
    ensures Guards(Reprioritize(l, t, prio), z')
  {
    ReprioritizeValid(l, t, prio);
    assert forall u: Tid :: u in Names(l.queue) ==> z'(u) == Gate;
  }

  /** At most one task is ever inside. */
  lemma OneInside(l: Lock, z: Tid -> Zone, t: Tid, u: Tid)
    requires Guards(l, z) && z(t) == Inside && z(u) == Inside
    ensures t == u
  {
  }
}
