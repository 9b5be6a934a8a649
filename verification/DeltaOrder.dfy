/**
 The mtask2 time queue as a value.  Each alarm holds the clock ticks that separate it from the alarm
 before it; `Schedule` decodes that differential form into absolute delays, and every operation is
 proved against its plain counterpart on absolute delays.
 */
module DeltaOrder {
  import opened Base

  datatype Alarm<T> = Alarm(who: T, ticks: nat)

  /** An absolute delay: `who` is due in `delay` ticks. */
  datatype Due<T> = Due(who: T, delay: nat)

  /** The differential queue decoded, starting `base` ticks from now. */
  function Schedule<T>(q: seq<Alarm<T>>, base: nat): (s: seq<Due<T>>)
    ensures |s| == |q|
  {
    if q == [] then []
    else [Due(q[0].who, base + q[0].ticks)] + Schedule(q[1..], base + q[0].ticks)
  }

  /** Nondecreasing, and nothing before `base`. */
  predicate Rising<T>(s: seq<Due<T>>, base: nat) {
    s == [] || (base <= s[0].delay && Rising(s[1..], s[0].delay))
  }

  /** The encoder: absolute delays, in nondecreasing order, to differences. */
  function Deltas<T>(s: seq<Due<T>>, base: nat): (q: seq<Alarm<T>>)
    requires Rising(s, base)
    ensures |q| == |s|
  {
    if s == [] then []
    else [Alarm(s[0].who, s[0].delay - base)] + Deltas(s[1..], s[0].delay)
  }

  /** mt_enqueue_time: the walk subtracts as it goes and the successor pays for the newcomer. */
  function InsertAlarm<T>(q: seq<Alarm<T>>, a: Alarm<T>): (r: seq<Alarm<T>>)
    ensures |r| == |q| + 1
  {
    if q == [] then [a]
    else if a.ticks <= q[0].ticks then [a, Alarm(q[0].who, q[0].ticks - a.ticks)] + q[1..]
    else [q[0]] + InsertAlarm(q[1..], Alarm(a.who, a.ticks - q[0].ticks))
  }

  /** Insertion by absolute delay: before the first alarm that is not earlier. */
  function InsertDue<T>(s: seq<Due<T>>, d: Due<T>): (r: seq<Due<T>>)
    ensures |r| == |s| + 1
  {
    if s == [] || d.delay <= s[0].delay then [d] + s else [s[0]] + InsertDue(s[1..], d)
  }

  /** mt_dequeue_time: the successor takes over the removed difference. */
  function RemoveAlarm<T(==)>(q: seq<Alarm<T>>, t: T): seq<Alarm<T>> {
    if q == [] then []
    else if q[0].who != t then [q[0]] + RemoveAlarm(q[1..], t)
    else if |q| == 1 then []
    else [Alarm(q[1].who, q[1].ticks + q[0].ticks)] + q[2..]
  }

  function RemoveDue<T(==)>(s: seq<Due<T>>, t: T): seq<Due<T>> {
    if s == [] then []
    else if s[0].who != t then [s[0]] + RemoveDue(s[1..], t)
    else s[1..]
  }

  /** clockint: alarms at zero leave, then the first that remains comes one tick nearer. */
  function Clock<T>(q: seq<Alarm<T>>): (r: seq<Alarm<T>>)
    ensures |r| <= |q|
  {
    if q == [] then []
    else if q[0].ticks == 0 then Clock(q[1..])
    else [Alarm(q[0].who, q[0].ticks - 1)] + q[1..]
  }

  /** The tasks one clock interrupt wakes, in order. */
  function Woken<T>(q: seq<Alarm<T>>): seq<T> {
    if q == [] || q[0].ticks > 0 then [] else [q[0].who] + Woken(q[1..])
  }

  /** One tick passes for every alarm at once; those already due are gone. */
  function Elapse<T>(s: seq<Due<T>>): seq<Due<T>> {
    if s == [] then []
    else (if s[0].delay == 0 then [] else [Due(s[0].who, s[0].delay - 1)]) + Elapse(s[1..])
  }

  /** Removal by position, when no task is armed twice. */
  lemma {:induction false} RemoveAlarmAt<T>(q: seq<Alarm<T>>, k: nat)
    requires k < |q| && forall i, j :: 0 <= i < j < |q| ==> q[i].who != q[j].who
    ensures RemoveAlarm(q, q[k].who) ==
      if k + 1 == |q| then q[..k]
      else q[..k] + [Alarm(q[k+1].who, q[k+1].ticks + q[k].ticks)] + q[k+2..]
  {
    if k > 0 {
      assert q[0].who != q[k].who;
      RemoveAlarmAt(q[1..], k - 1);
    }
  }

  /** A newcomer put in place, its successor's difference reduced. */
  ghost function Placed<T>(q: seq<Alarm<T>>, i: nat, a: Alarm<T>): (r: seq<Alarm<T>>)
    requires i <= |q| && (i < |q| ==> a.ticks <= q[i].ticks)
  {
    if i == |q| then q + [a] else q[..i] + [a, Alarm(q[i].who, q[i].ticks - a.ticks)] + q[i+1..]
  }

  /** The ticks of the first `i` alarms together. */
  ghost function Before<T>(q: seq<Alarm<T>>, i: nat): nat
    requires i <= |q|
  {
    if i == 0 then 0 else Before(q, i - 1) + q[i-1].ticks
  }

  lemma {:induction false} BeforeTail<T>(q: seq<Alarm<T>>, i: nat)
    requires i < |q|
    ensures Before(q, i + 1) == q[0].ticks + Before(q[1..], i)
  {
    if i > 0 {
      BeforeTail(q, i - 1);
    }
  }

  /** The place where the subtracting walk stops is the place of the insertion. */
  lemma {:induction false} InsertAlarmAt<T>(q: seq<Alarm<T>>, i: nat, a: Alarm<T>)
    requires i <= |q| && (i < |q| ==> a.ticks <= q[i].ticks) && (i > 0 ==> a.ticks > 0)
    ensures InsertAlarm(q, Alarm(a.who, a.ticks + Before(q, i))) == Placed(q, i, a)
  {
    if i > 0 {
      BeforeTail(q, i - 1);
      InsertAlarmAt(q[1..], i - 1, a);
      PlacedBehind(q, i, a);
    }
  }

  lemma PlacedBehind<T>(q: seq<Alarm<T>>, i: nat, a: Alarm<T>)
    requires 0 < i <= |q| && (i < |q| ==> a.ticks <= q[i].ticks)
    ensures [q[0]] + Placed(q[1..], i - 1, a) == Placed(q, i, a)
  {
  }

  lemma {:induction false} ScheduleRises<T>(q: seq<Alarm<T>>, base: nat)
    ensures Rising(Schedule(q, base), base)
  {
    if q != [] {
      ScheduleRises(q[1..], base + q[0].ticks);
    }
  }

  lemma {:induction false} RisingIsSorted<T>(s: seq<Due<T>>, base: nat)
    requires Rising(s, base)
    ensures forall i :: 0 <= i < |s| ==> base <= s[i].delay
    ensures forall i, j :: 0 <= i < j < |s| ==> s[i].delay <= s[j].delay
  {
    if s != [] {
      var t := s[1..];
      RisingIsSorted(t, s[0].delay);
      assert forall i :: 0 < i < |s| ==> s[i] == t[i-1];
    }
  }

  /** Decoding inverts encoding. */
  lemma {:induction false} DecodeEncode<T>(s: seq<Due<T>>, base: nat)
    requires Rising(s, base)
    ensures Schedule(Deltas(s, base), base) == s
  {
    if s != [] {
      DecodeEncode(s[1..], s[0].delay);
      assert Deltas(s, base)[1..] == Deltas(s[1..], s[0].delay);
    }
  }

  /** Encoding inverts decoding. */
  lemma {:induction false} EncodeDecode<T>(q: seq<Alarm<T>>, base: nat)
    ensures Rising(Schedule(q, base), base) && Deltas(Schedule(q, base), base) == q
  {
    ScheduleRises(q, base);
    if q != [] {
      EncodeDecode(q[1..], base + q[0].ticks);
      assert Schedule(q, base)[1..] == Schedule(q[1..], base + q[0].ticks);
    }
  }

  /** The differential insertion is the plain one: every other alarm keeps its absolute delay. */
  lemma {:induction false} InsertAlarmRefines<T>(q: seq<Alarm<T>>, a: Alarm<T>, base: nat)
    ensures Schedule(InsertAlarm(q, a), base) == InsertDue(Schedule(q, base), Due(a.who, base + a.ticks))
  {
    var r := InsertAlarm(q, a);
    if q == [] {
      assert r[1..] == [];
    } else if a.ticks <= q[0].ticks {
      assert r[1..] == [Alarm(q[0].who, q[0].ticks - a.ticks)] + q[1..];
      assert r[1..][1..] == q[1..];
    } else {
      assert r[1..] == InsertAlarm(q[1..], Alarm(a.who, a.ticks - q[0].ticks));
      InsertAlarmRefines(q[1..], Alarm(a.who, a.ticks - q[0].ticks), base + q[0].ticks);
      assert Schedule(q, base)[1..] == Schedule(q[1..], base + q[0].ticks);
    }
  }

  /** Removing one alarm leaves every other absolute delay as it was. */
  lemma {:induction false} RemoveAlarmRefines<T>(q: seq<Alarm<T>>, t: T, base: nat)
    ensures Schedule(RemoveAlarm(q, t), base) == RemoveDue(Schedule(q, base), t)
  {
    if q != [] {
      var r := RemoveAlarm(q, t);
      assert Schedule(q, base)[1..] == Schedule(q[1..], base + q[0].ticks);
      if q[0].who != t {
        assert r[1..] == RemoveAlarm(q[1..], t);
        RemoveAlarmRefines(q[1..], t, base + q[0].ticks);
      } else if |q| > 1 {
        assert r[1..] == q[2..] == q[1..][1..];
      }
    }
  }

  lemma {:induction false} ElapseShifts<T>(q: seq<Alarm<T>>, base: nat)
    requires base > 0
    ensures Elapse(Schedule(q, base)) == Schedule(q, base - 1)
  {
    if q != [] {
      ElapseShifts(q[1..], base + q[0].ticks);
      assert Schedule(q, base)[1..] == Schedule(q[1..], base + q[0].ticks);
    }
  }

  /** The clock touches only the head of the differential queue, yet every delay shrinks by one. */
  lemma {:induction false} ClockRefines<T>(q: seq<Alarm<T>>)
    ensures Schedule(Clock(q), 0) == Elapse(Schedule(q, 0))
  {
    if q != [] {
      assert Schedule(q, 0)[1..] == Schedule(q[1..], q[0].ticks);
      if q[0].ticks == 0 {
        ClockRefines(q[1..]);
      } else {
        ElapseShifts(q[1..], q[0].ticks);
        assert Clock(q)[1..] == q[1..];
      }
    }
  }

  /**
   mt_getfirst_time drops the head without paying its difference on, so the others keep their delays
   exactly when the head was due now (or there are no others).
   */
  lemma PopKeepsDelaysIffDue<T>(q: seq<Alarm<T>>)
    requires q != []
    ensures Schedule(q[1..], 0) == Schedule(q, 0)[1..] <==> q[0].ticks == 0 || |q| == 1
  {
    assert Schedule(q, 0)[1..] == Schedule(q[1..], q[0].ticks);
    if |q| > 1 {
      assert Schedule(q[1..], q[0].ticks)[0].delay == Schedule(q[1..], 0)[0].delay + q[0].ticks;
    }
  }

  // ----- whole runs -----

  datatype Op<T> = SetAlarm(who: T, ticks: nat) | Cancel(who: T) | Tick

  function Apply<T(==)>(q: seq<Alarm<T>>, op: Op<T>): seq<Alarm<T>> {
    match op
    case SetAlarm(t, n) => InsertAlarm(q, Alarm(t, n))
    case Cancel(t) => RemoveAlarm(q, t)
    case Tick => Clock(q)
  }

  /** For each clock interrupt of the run, the tasks it wakes. */
  function Wakes<T(==)>(q: seq<Alarm<T>>, ops: seq<Op<T>>): (w: seq<seq<T>>)
    ensures |w| == Ticks(ops)
    decreases ops
  {
    if ops == [] then []
    else (if ops[0].Tick? then [Woken(q)] else []) + Wakes(Apply(q, ops[0]), ops[1..])
  }

  function Ticks<T>(ops: seq<Op<T>>): nat {
    if ops == [] then 0 else (if ops[0].Tick? then 1 else 0) + Ticks(ops[1..])
  }

  /** The run neither cancels `t` nor arms it again. */
  ghost predicate LeavesAlone<T(!new)>(ops: seq<Op<T>>, t: T) {
    forall i :: 0 <= i < |ops| ==> ops[i].Tick? || ops[i].who != t
  }

  /** The delays of `t`, earliest first. */
  function Delays<T(==)>(s: seq<Due<T>>, t: T): seq<nat> {
    if s == [] then [] else (if s[0].who == t then [s[0].delay] else []) + Delays(s[1..], t)
  }

  /** `t` is in the queue, once, `d` ticks away. */
  ghost predicate Pending<T(!new)>(q: seq<Alarm<T>>, t: T, d: nat) {
    Delays(Schedule(q, 0), t) == [d]
  }

  ghost predicate Unarmed<T(!new)>(q: seq<Alarm<T>>, t: T) {
    Delays(Schedule(q, 0), t) == []
  }

  lemma {:induction false} InsertDueDelays<T>(s: seq<Due<T>>, d: Due<T>, t: T)
    ensures d.who != t ==> Delays(InsertDue(s, d), t) == Delays(s, t)
    ensures d.who == t && Delays(s, t) == [] ==> Delays(InsertDue(s, d), t) == [d.delay]
  {
    var r := InsertDue(s, d);
    if s == [] || d.delay <= s[0].delay {
      assert r[1..] == s;
    } else {
      InsertDueDelays(s[1..], d, t);
      assert r[1..] == InsertDue(s[1..], d);
    }
  }

  lemma {:induction false} RemoveDueDelays<T>(s: seq<Due<T>>, u: T, t: T)
    requires u != t
    ensures Delays(RemoveDue(s, u), t) == Delays(s, t)
  {
    if s != [] {
      if s[0].who != u {
        RemoveDueDelays(s[1..], u, t);
        assert RemoveDue(s, u)[1..] == RemoveDue(s[1..], u);
      }
    }
  }

  lemma {:induction false} ElapseDelays<T>(s: seq<Due<T>>, t: T)
    ensures Delays(s, t) == [] ==> Delays(Elapse(s), t) == []
    ensures Delays(s, t) == [0] ==> Delays(Elapse(s), t) == []
    ensures |Delays(s, t)| == 1 && Delays(s, t)[0] > 0 ==> Delays(Elapse(s), t) == [Delays(s, t)[0] - 1]
  {
    if s != [] {
      ElapseDelays(s[1..], t);
      if s[0].delay == 0 {
        assert Elapse(s) == Elapse(s[1..]);
      } else {
        assert Elapse(s)[1..] == Elapse(s[1..]);
      }
      if s[0].who == t {
        assert Delays(s, t)[1..] == Delays(s[1..], t);
      } else {
        assert Delays(s, t) == Delays(s[1..], t);
      }
    }
  }

  lemma {:induction false} LateDelays<T>(q: seq<Alarm<T>>, base: nat, t: T)
    requires base > 0
    ensures 0 !in Delays(Schedule(q, base), t)
  {
    if q != [] {
      LateDelays(q[1..], base + q[0].ticks, t);
      assert Schedule(q, base)[1..] == Schedule(q[1..], base + q[0].ticks);
    }
  }

  /** A clock interrupt wakes exactly the tasks whose delay has run out. */
  lemma {:induction false} WokenIffDue<T>(q: seq<Alarm<T>>, t: T)
    ensures t in Woken(q) <==> 0 in Delays(Schedule(q, 0), t)
  {
    if q != [] {
      assert Schedule(q, 0)[1..] == Schedule(q[1..], q[0].ticks);
      if q[0].ticks == 0 {
        WokenIffDue(q[1..], t);
      } else {
        LateDelays(q[1..], q[0].ticks, t);
      }
    }
  }

  /** What one operation on other tasks does to the delays of `t`. */
  lemma ApplyDelays<T(!new)>(q: seq<Alarm<T>>, op: Op<T>, t: T)
    requires op.Tick? || op.who != t
    ensures !op.Tick? ==> Delays(Schedule(Apply(q, op), 0), t) == Delays(Schedule(q, 0), t)
    ensures op.Tick? ==> Delays(Schedule(Apply(q, op), 0), t) == Delays(Elapse(Schedule(q, 0)), t)
  {
    match op
    case SetAlarm(u, n) =>
      InsertAlarmRefines(q, Alarm(u, n), 0);
      InsertDueDelays(Schedule(q, 0), Due(u, n), t);
    case Cancel(u) =>
      RemoveAlarmRefines(q, u, 0);
      RemoveDueDelays(Schedule(q, 0), u, t);
    case Tick =>
      ClockRefines(q);
  }

  lemma {:induction false} StaysUnarmed<T(!new)>(q: seq<Alarm<T>>, ops: seq<Op<T>>, t: T)
    requires Unarmed(q, t) && LeavesAlone(ops, t)
    ensures forall j :: 0 <= j < Ticks(ops) ==> t !in Wakes(q, ops)[j]
    decreases ops
  {
    if ops != [] {
      ApplyDelays(q, ops[0], t);
      ElapseDelays(Schedule(q, 0), t);
      WokenIffDue(q, t);
      StaysUnarmed(Apply(q, ops[0]), ops[1..], t);
    }
  }

  /**
   The promise of the time queue over whole runs: whatever other alarms are set, cancelled or go off
   meanwhile, an alarm `d` ticks away goes off at clock interrupt number `d` (counting from 0), and at
   no other.
   */
  lemma {:induction false} AlarmGoesOffOnTime<T(!new)>(q: seq<Alarm<T>>, ops: seq<Op<T>>, t: T, d: nat)
    requires Pending(q, t, d) && LeavesAlone(ops, t)
    ensures forall j :: 0 <= j < Ticks(ops) ==> (t in Wakes(q, ops)[j] <==> j == d)
    decreases ops
  {
    if ops != [] {
      var q' := Apply(q, ops[0]);
      ApplyDelays(q, ops[0], t);
      if ops[0].Tick? {
        ElapseDelays(Schedule(q, 0), t);
        WokenIffDue(q, t);
        if d == 0 {
          StaysUnarmed(q', ops[1..], t);
        } else {
          AlarmGoesOffOnTime(q', ops[1..], t, d - 1);
        }
      } else {
        AlarmGoesOffOnTime(q', ops[1..], t, d);
      }
    }
  }

  /** A task that sleeps `n` ticks is pending with exactly that delay. */
  lemma SetAlarmIsPending<T(!new)>(q: seq<Alarm<T>>, t: T, n: nat)
    requires Unarmed(q, t)
    ensures Pending(InsertAlarm(q, Alarm(t, n)), t, n)
  {
    InsertAlarmRefines(q, Alarm(t, n), 0);
    InsertDueDelays(Schedule(q, 0), Due(t, n), t);
  }
}
