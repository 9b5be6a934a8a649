/** Small types shared by every part of the model. */
module Base {
  datatype Option<+T> = None | Some(value: T)

  /** Bytes as the drivers and pipes move them. */
  type Byte = n: int | 0 <= n < 256 witness 0

  /** A task identity. */
  type Tid = nat

  function Min(a: int, b: int): int { if a < b then a else b }

  predicate Distinct<T(==)>(s: seq<T>) {
    forall i, j :: 0 <= i < j < |s| ==> s[i] != s[j]
  }

  /** A byte array with `b` written from `at` on. */
  ghost function Patch(d: seq<Byte>, at: nat, b: seq<Byte>): (r: seq<Byte>)
    requires at + |b| <= |d|
    ensures |r| == |d|
  {
    d[..at] + b + d[at+|b|..]
  }
}
