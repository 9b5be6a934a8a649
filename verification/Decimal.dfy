/** tpesoGuia's integers in decimal: digits written backwards and then reversed in place, and read again. */
module Decimal {
  import opened Base

  predicate IsDigit(c: Byte) {
    0x30 <= c <= 0x39
  }

  /** The digits of a number, first the highest. */
  function Digits(n: nat): (d: seq<Byte>)
    ensures |d| > 0 && forall i :: 0 <= i < |d| ==> IsDigit(d[i])
    ensures |d| > 1 ==> d[0] != 0x30
  {
    if n < 10 then [n + 0x30] else Digits(n / 10) + [n % 10 + 0x30]
  }

  function Pow10(k: nat): nat {
    if k == 0 then 1 else 10 * Pow10(k - 1)
  }

  /** As many digits as the number needs. */
  lemma {:induction false} DigitCount(n: nat)
    ensures n < Pow10(|Digits(n)|) && (|Digits(n)| > 1 ==> Pow10(|Digits(n)| - 1) <= n)
  {
    if n >= 10 {
      DigitCount(n / 10);
    }
  }

  /** The number that a text of digits stands for. */
  function Value(t: seq<Byte>): int {
    if t == [] then 0 else 10 * Value(t[..|t|-1]) + (t[|t|-1] as int - 0x30)
  }

  lemma {:induction false} DigitsHaveTheValue(n: nat)
    ensures Value(Digits(n)) == n
  {
    if n >= 10 {
      DigitsHaveTheValue(n / 10);
      assert Digits(n)[..|Digits(n)|-1] == Digits(n / 10);
    }
  }

  function Reversed(s: seq<Byte>): (r: seq<Byte>)
    ensures |r| == |s| && forall i :: 0 <= i < |s| ==> r[i] == s[|s| - 1 - i]
  {
    seq(|s|, i requires 0 <= i < |s| => s[|s| - 1 - i])
  }

  /** Signed 32-bit arithmetic. */
  function Wrap(x: int): int {
    (x + 0x8000_0000) % 0x1_0000_0000 - 0x8000_0000
  }

  /** Wrapping shifts by a multiple of 2^32. */
  lemma WrapIsShift(x: int) returns (k: int)
    ensures Wrap(x) == x + k * 0x1_0000_0000
  {
    k := 0 - (x + 0x8000_0000) / 0x1_0000_0000;
  }

  lemma WrapShift(x: int, k: int)
    ensures Wrap(x + k * 0x1_0000_0000) == Wrap(x)
  {
  }

  /** One digit more, in wrapped arithmetic. */
  lemma WrapStep(x: int, d: int)
    ensures Wrap(Wrap(10 * Wrap(x)) + d) == Wrap(10 * x + d)
  {
    var y := 10 * Wrap(x);
    var k := WrapIsShift(x);
    assert y + d == (10 * x + d) + (10 * k) * 0x1_0000_0000;
    WrapShift(10 * x + d, 10 * k);
    var j := WrapIsShift(y);
    assert Wrap(y) + d == (y + d) + j * 0x1_0000_0000;
    WrapShift(y + d, j);
  }

  predicate Terminated(t: seq<Byte>) {
    exists i :: 0 <= i < |t| && !IsDigit(t[i])
  }

  /** The digits a text starts with. */
  function Leading(t: seq<Byte>): (d: seq<Byte>)
    ensures |d| <= |t| && d == t[..|d|] && (forall i :: 0 <= i < |d| ==> IsDigit(d[i]))
        && (|d| < |t| ==> !IsDigit(t[|d|]))
  {
    if t == [] || !IsDigit(t[0]) then [] else [t[0]] + Leading(t[1..])
  }

  /** atoi2 */
  method Atoi2(texto: array<Byte>) returns (a: int)
    requires Terminated(texto[..])
    ensures a == Wrap(Value(Leading(texto[..])))
  {
    a := 0;
    var i := 0;
    ghost var t := texto[..];
    while IsDigit(texto[i])
      invariant 0 <= i < texto.Length && i <= |Leading(t)|
      invariant a == Wrap(Value(t[..i]))
      decreases texto.Length - i
    {
      WrapStep(Value(t[..i]), texto[i] as int - 0x30);
      assert t[..i+1][..i] == t[..i];
      a := Wrap(a * 10);
      a := Wrap(a + (texto[i] as int - 0x30));
      i := i + 1;
    }
  }

  /** itoa2 */
  method Itoa2(n: nat, rta: array<Byte>) returns (contador: nat)
    requires n < 0x1_0000_0000 && |Digits(n)| < rta.Length
    modifies rta
    ensures contador == |Digits(n)|
    ensures rta[..] == Digits(n) + [0] + old(rta[contador+1..])
  {
    contador := WriteBackwards(n, rta);
    ReverseInPlace(rta, contador);
    rta[contador] := 0;
    assert rta[..contador] == Digits(n);
    assert rta[contador+1..] == old(rta[contador+1..]);
    assert rta[..] == rta[..contador] + [rta[contador]] + rta[contador+1..];
  }

  /** The second loop of itoa2. */
  method ReverseInPlace(rta: array<Byte>, contador: nat)
    requires contador <= rta.Length
    modifies rta
    ensures rta[..contador] == Reversed(old(rta[..contador]))
    ensures forall k :: contador <= k < rta.Length ==> rta[k] == old(rta[k])
  {
    for i := 0 to contador / 2
      invariant forall k :: 0 <= k < i || contador - i <= k < contador ==> rta[k] == old(rta[contador - 1 - k])
      invariant forall k :: i <= k < contador - i ==> rta[k] == old(rta[k])
      invariant forall k :: contador <= k < rta.Length ==> rta[k] == old(rta[k])
    {
      var temp := rta[i];
      rta[i] := rta[contador - i - 1];
      rta[contador - i - 1] := temp;
    }
  }

  /** The first loop of itoa2: the digits, lowest first. */
  method WriteBackwards(n: nat, rta: array<Byte>) returns (contador: nat)
    requires |Digits(n)| < rta.Length
    modifies rta
    ensures contador == |Digits(n)| && Reversed(rta[..contador]) == Digits(n)
    ensures forall k :: contador <= k < rta.Length ==> rta[k] == old(rta[k])
  {
    var a := n;
    contador := 0;
    var again := true;
    while again
      invariant !again <==> (a == 0 && contador > 0)
      invariant contador + (if again then |Digits(a)| else 0) == |Digits(n)|
      invariant (if again then Digits(a) else []) + Reversed(rta[..contador]) == Digits(n)
      invariant forall k :: contador <= k < rta.Length ==> rta[k] == old(rta[k])
      decreases again, a
    {
      ghost var before := rta[..contador];
      rta[contador] := a % 10 + 0x30;
      ReversedGrows(before, rta[contador]);
      assert rta[..contador+1] == before + [rta[contador]];
      a := a / 10;
      contador := contador + 1;
      again := a != 0;
    }
  }

  lemma ReversedGrows(s: seq<Byte>, b: Byte)
    ensures Reversed(s + [b]) == [b] + Reversed(s)
  {
  }

  /**
   Printing an unsigned 32-bit number and reading the text back gives the number exactly when it is below 2^31, the
   range of the signed integers that are read.
   */
  lemma RoundTripBelow2To31(n: nat, rest: seq<Byte>)
    requires n < 0x1_0000_0000
    ensures Terminated(Digits(n) + [0] + rest)
    ensures Wrap(Value(Leading(Digits(n) + [0] + rest))) == n <==> n < 0x8000_0000
  {
    var t := Digits(n) + [0] + rest;
    assert !IsDigit(t[|Digits(n)|]);
    LeadingDigits(Digits(n), [0] + rest);
    assert t == Digits(n) + ([0] + rest);
    DigitsHaveTheValue(n);
  }

  lemma {:induction false} LeadingDigits(d: seq<Byte>, rest: seq<Byte>)
    requires (forall i :: 0 <= i < |d| ==> IsDigit(d[i])) && rest != [] && !IsDigit(rest[0])
    ensures Leading(d + rest) == d
  {
    if d == [] {
      assert d + rest == rest;
    } else {
      assert (d + rest)[1..] == d[1..] + rest;
      LeadingDigits(d[1..], rest);
    }
  }
}
