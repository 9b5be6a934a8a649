/**
 tpesoGuia's eight text terminals: the one shown lives in video memory, the others in buffers that trade places with
 it at every switch.
 */
module Terminals {
  import opened Base

  const SCREEN: nat := 160 * 25
  const TTYS: nat := 8

  /** The texts of the terminals and which one is shown. */
  datatype Screens = Screens(texts: seq<seq<Byte>>, current: nat)

  /** A key combination that shows a terminal, or a byte that a program writes to its own. */
  datatype Event = Switch(next: nat) | Put(tty: nat, at: nat, b: Byte)

  predicate Possible(e: Event) {
    match e
    case Switch(next) => next < TTYS
    case Put(tty, at, _) => tty < TTYS && at < SCREEN
  }

  /** What is to happen: a switch shows another terminal and leaves every text alone. */
  function Do(s: Screens, e: Event): Screens {
    match e
    case Switch(next) => s.(current := next)
    case Put(tty, at, b) =>
      if tty >= |s.texts| || at >= |s.texts[tty]| then s
      else WithText(s, tty, s.texts[tty][..at] + [b] + s.texts[tty][at+1..])
  }

  function WithText(s: Screens, tty: nat, text: seq<Byte>): Screens
    requires tty < |s.texts|
  {
    s.(texts := s.texts[tty := text])
  }

  function DoAll(s: Screens, es: seq<Event>): Screens
    decreases |es|
  {
    if es == [] then s else DoAll(Do(s, es[0]), es[1..])
  }

  class Console {
    const video: array<Byte>
    var terminal: seq<array<Byte>>
    var backup: array<Byte>
    var current: nat

    /** The nine buffers, video memory among them, are nine; the terminal shown is in video memory. */
    ghost predicate Valid()
      reads this
    {
      && |terminal| == TTYS && current < TTYS && terminal[current] == video
      && Distinct(terminal) && backup !in terminal
      && backup.Length == SCREEN && forall k :: 0 <= k < TTYS ==> terminal[k].Length == SCREEN
    }

    /** The buffers of the terminals and the spare one. */
    ghost function Buffers(): seq<array<Byte>>
      reads this
    {
      terminal + [backup]
    }

    ghost function View(): Screens
      reads this, terminal
    {
      Screens(seq(|terminal|, k requires 0 <= k < |terminal| reads this, terminal => terminal[k][..]), current)
    }

    /** The part of kmain that sets the buffers up. */
    constructor ()
      ensures Valid() && current == 0
    {
      video := new Byte[SCREEN](_ => 0);
      terminal := [];
      current := 0;
      backup := new Byte[SCREEN](_ => 0);
      new;
      for i := 0 to TTYS
        invariant |terminal| == i && forall k :: 0 <= k < i ==> fresh(terminal[k])
        invariant Distinct(terminal) && video !in terminal && backup !in terminal && video != backup && current == 0
        invariant backup.Length == video.Length == SCREEN && forall k :: 0 <= k < i ==> terminal[k].Length == SCREEN
      {
        var blank := new Byte[SCREEN](j => if j % 2 == 0 then 0 else 7);
        terminal := terminal + [blank];
      }
      backup := terminal[0];
      terminal := terminal[0 := video];
      backup := new Byte[SCREEN](_ => 0);
    }

    /** memcpy2 over a whole screen. */
    method CopyScreen(to: array<Byte>, from: array<Byte>)
      requires to.Length == from.Length == SCREEN
      modifies to
      ensures to[..] == old(from[..])
    {
      for i := 0 to SCREEN
        invariant forall k :: 0 <= k < i ==> to[k] == old(from[k])
        invariant forall k :: i <= k < SCREEN ==> from[k] == old(from[k])
      {
        to[i] := from[i];
      }
    }

    /** The switch of int_09; also to the terminal that is shown already. */
    method SwitchTo(next: nat)
      requires Valid() && next < TTYS
      modifies this`terminal, this`backup, this`current, video, backup
      ensures Valid() && View() == Do(old(View()), Switch(next))
      ensures backup in old(Buffers()) && forall k :: 0 <= k < TTYS ==> terminal[k] in old(Buffers())
    {
      CopyScreen(backup, video);
      CopyScreen(video, terminal[next]);
      terminal := terminal[current := backup];
      backup := terminal[next];
      terminal := terminal[next := video];
      current := next;
    }

    /** A program writes to its terminal, shown or not. */
    method PutByte(tty: nat, at: nat, b: Byte)
      requires Valid() && tty < TTYS && at < SCREEN
      modifies terminal[tty]
      ensures Valid() && View() == Do(old(View()), Put(tty, at, b))
    {
      ghost var was := View();
      terminal[tty][at] := b;
      assert terminal[tty][..] == was.texts[tty][..at] + [b] + was.texts[tty][at+1..];
      assert View().texts == was.texts[tty := terminal[tty][..]];
    }

    /** Any sequence of switches and writes. */
    method Play(es: seq<Event>)
      requires Valid() && forall i :: 0 <= i < |es| ==> Possible(es[i])
      modifies this, video, backup, terminal
      ensures Valid() && View() == DoAll(old(View()), es)
      decreases |es|
    {
      if es != [] {
        match es[0] {
          case Switch(next) => SwitchTo(next);
          case Put(tty, at, b) => PutByte(tty, at, b);
        }
        Play(es[1..]);
      }
    }
  }

  function Writes(es: seq<Event>): seq<Event> {
    if es == [] then [] else (if es[0].Put? then [es[0]] else []) + Writes(es[1..])
  }

  /** Over any sequence the texts are what the writes alone would have made them. */
  lemma {:induction false} SwitchesLeaveNoTrace(s: Screens, other: nat, es: seq<Event>)
    ensures DoAll(s, es).texts == DoAll(s.(current := other), Writes(es)).texts
    decreases |es|
  {
    if es != [] {
      SwitchesLeaveNoTrace(Do(s, es[0]), other, es[1..]);
      assert Writes(es) == if es[0].Put? then [es[0]] + Writes(es[1..]) else Writes(es[1..]);
      assert es[0].Put? ==> Writes(es)[1..] == Writes(es[1..]);
      assert Do(s, es[0]).(current := other)
          == if es[0].Put? then Do(s.(current := other), es[0]) else s.(current := other);
    }
  }

  /** The terminal shown at the end is the one switched to last. */
  lemma {:induction false} LastSwitchIsShown(s: Screens, es: seq<Event>, i: nat)
    requires i < |es| && es[i].Switch? && forall k :: i < k < |es| ==> es[k].Put?
    ensures DoAll(s, es).current == es[i].next
    decreases |es|
  {
    if i > 0 {
      LastSwitchIsShown(Do(s, es[0]), es[1..], i - 1);
    } else {
      WritesShowTheSame(Do(s, es[0]), es[1..]);
    }
  }

  lemma {:induction false} WritesShowTheSame(s: Screens, es: seq<Event>)
    requires forall k :: 0 <= k < |es| ==> es[k].Put?
    ensures DoAll(s, es).current == s.current
    decreases |es|
  {
    if es != [] {
      WritesShowTheSame(Do(s, es[0]), es[1..]);
    }
  }
}
