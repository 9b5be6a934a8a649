/** A bounded ring: positions wrap at the end of the buffer. */
module Rings {
  import opened Base

  /** The position after `i`. */
  function Next(size: nat, i: nat): (j: nat)
    requires i < size
    ensures j < size
  {
    if i + 1 == size then 0 else i + 1
  }

  /** The position `k` places after `head`, at most one lap. */
  function At(size: nat, head: nat, k: nat): (j: nat)
    requires head < size && k <= size
    ensures j < size
  {
    if head + k < size then head + k else head + k - size
  }

  /** The `n` elements from `head` on. */
  function Contents<T>(buf: seq<T>, head: nat, n: nat): (s: seq<T>)
    requires head < |buf| && n <= |buf|
    ensures |s| == n
  {
    seq(n, k requires 0 <= k < n => buf[At(|buf|, head, k)])
  }

  /** Writing at the end of the contents appends. */
  lemma PushAppends<T>(buf: seq<T>, head: nat, n: nat, x: T)
    requires head < |buf| && n < |buf|
    ensures var tail := At(|buf|, head, n);
      && Contents(buf[tail := x], head, n + 1) == Contents(buf, head, n) + [x]
      && Next(|buf|, tail) == At(|buf|, head, n + 1)
  {
    var tail := At(|buf|, head, n);
    assert forall k :: 0 <= k < n ==> At(|buf|, head, k) != tail;
  }

  /** Reading at `head` and stepping drops the first element. */
  lemma PopDrops<T>(buf: seq<T>, head: nat, n: nat)
    requires head < |buf| && 0 < n <= |buf|
    ensures Contents(buf, head, n) == [buf[head]] + Contents(buf, Next(|buf|, head), n - 1)
    ensures At(|buf|, Next(|buf|, head), n - 1) == At(|buf|, head, n)
  {
    var h := Next(|buf|, head);
    assert forall k :: 0 <= k < n - 1 ==> At(|buf|, h, k) == At(|buf|, head, k + 1);
  }

  /** Stepping over `i` elements drops them all. */
  lemma PopsDrop<T>(buf: seq<T>, head: nat, n: nat, i: nat)
    requires head < |buf| && i <= n <= |buf|
    ensures var h := At(|buf|, head, i);
      Contents(buf, h, n - i) == Contents(buf, head, n)[i..] && At(|buf|, h, n - i) == At(|buf|, head, n)
  {
    var h := At(|buf|, head, i);
    assert forall k :: 0 <= k < n - i ==> At(|buf|, h, k) == At(|buf|, head, i + k);
  }

  /** The buffer of a pipe, with the copying loops of get_data and put_data. */
  class ByteRing {
    const buf: array<Byte>
    var head: nat
    var tail: nat
    var avail: nat

    ghost predicate Valid()
      reads this
    {
      head < buf.Length && avail <= buf.Length && tail == At(buf.Length, head, avail)
    }

    ghost function Bytes(): seq<Byte>
      requires Valid()
      reads this, buf
    {
      Contents(buf[..], head, avail)
    }

    constructor (size: nat)
      requires size > 0
      ensures Valid() && Bytes() == [] && buf.Length == size && fresh(buf)
    {
      buf := new Byte[size](i => 0);
      head, tail, avail := 0, 0, 0;
    }

    /** Moves the oldest bytes, as many as are wanted and present, to `data` from `at` on. */
    method GetData(data: array<Byte>, at: nat, nreq: nat) returns (nbytes: nat)
      requires Valid() && at + nreq <= data.Length && data != buf
      modifies this, data
      ensures Valid() && nbytes == Min(nreq, old(avail))
      ensures data[..] == old(data[..at]) + old(Bytes())[..nbytes] + old(data[at + nbytes..])
      ensures Bytes() == old(Bytes())[nbytes..]
    {
      ghost var was := Bytes();
      nbytes := Min(nreq, avail);
      var i := 0;
      while i < nbytes
        invariant 0 <= i <= nbytes && avail == old(avail) && tail == old(tail)
        invariant head == At(buf.Length, old(head), i)
        invariant forall k {:trigger data[k]} :: at <= k < at + i ==> data[k] == was[k - at]
        invariant forall k {:trigger data[k]} :: 0 <= k < at || at + i <= k < data.Length ==> data[k] == old(data[k])
      {
        data[at + i] := buf[head];
        head := Next(buf.Length, head);
        i := i + 1;
      }
      PopsDrop(buf[..], old(head), avail, nbytes);
      avail := avail - nbytes;
    }

    /** Appends bytes of `data` from `at` on, as many as there is room for. */
    method PutData(data: seq<Byte>, at: nat, nreq: nat) returns (nbytes: nat)
      requires Valid() && at + nreq <= |data|
      modifies this, buf
      ensures Valid() && nbytes == Min(nreq, buf.Length - old(avail))
      ensures Bytes() == old(Bytes()) + data[at..at + nbytes]
    {
      ghost var was := Bytes();
      nbytes := Min(nreq, buf.Length - avail);
      var i := 0;
      while i < nbytes
        invariant 0 <= i <= nbytes && avail == old(avail) && head == old(head)
        invariant tail == At(buf.Length, head, avail + i)
        invariant Contents(buf[..], head, avail + i) == was + data[at..at + i]
      {
        PushAppends(buf[..], head, avail + i, data[at + i]);
        ghost var b := buf[..];
        buf[tail] := data[at + i];
        assert buf[..] == b[tail := data[at + i]];
        tail := Next(buf.Length, tail);
        assert data[at..at + i + 1] == data[at..at + i] + [data[at + i]];
        i := i + 1;
      }
      avail := avail + nbytes;
    }
  }
}
