/** Chinux's 128-byte record of an inode: nineteen 32-bit integers and filler, as the struct lies in memory. */
module InodeRecords {
  import opened Base

  type Int32 = n: int | -0x8000_0000 <= n < 0x8000_0000 witness 0

  const RECORD_SIZE: nat := 128
  const NUMBER_DIRECT_BLOCKS: nat := 12

  /** `blocks[0]` is the first block of the file's extent and `blocks[1]` the length of the extent in blocks. */
  datatype Inode = Inode(
    identifier: Int32, number: Int32, uid: Int32, gid: Int32, mode: Int32, size: Int32, link: Int32,
    blocks: seq<Int32>, filler: seq<Byte>)

  ghost predicate Shaped(i: Inode) {
    |i.blocks| == NUMBER_DIRECT_BLOCKS && |i.filler| == 52
  }

  // ----- integers in memory, least significant byte first -----

  function EncodeInt(n: Int32): (b: seq<Byte>)
    ensures |b| == 4
  {
    var u: int := if n < 0 then n as int + 0x1_0000_0000 else n as int;
    [u % 256, u / 256 % 256, u / 0x1_0000 % 256, u / 0x100_0000]
  }

  function DecodeInt(b: seq<Byte>): Int32
    requires |b| == 4
  {
    var u: int := b[0] as int + 256 * (b[1] as int) + 0x1_0000 * (b[2] as int) + 0x100_0000 * (b[3] as int);
    if u >= 0x8000_0000 then u - 0x1_0000_0000 else u
  }

  lemma IntComesBack(n: Int32)
    ensures DecodeInt(EncodeInt(n)) == n
  {
    var u: int := if n < 0 then n as int + 0x1_0000_0000 else n as int;
    assert u / 256 / 256 == u / 0x1_0000 && u / 0x1_0000 / 256 == u / 0x100_0000;
  }

  function EncodeInts(ns: seq<Int32>): (b: seq<Byte>)
    ensures |b| == 4 * |ns|
  {
    if ns == [] then [] else EncodeInt(ns[0]) + EncodeInts(ns[1..])
  }

  function IntAt(b: seq<Byte>, k: nat): Int32
    requires 4 * k + 4 <= |b|
  {
    DecodeInt(b[4*k..4*k+4])
  }

  lemma {:induction false} IntsComeBack(ns: seq<Int32>, rest: seq<Byte>, k: nat)
    requires k < |ns|
    ensures IntAt(EncodeInts(ns) + rest, k) == ns[k]
  {
    var b := EncodeInts(ns) + rest;
    var tail := EncodeInts(ns[1..]) + rest;
    assert b == EncodeInt(ns[0]) + tail;
    if k == 0 {
      assert b[0..4] == EncodeInt(ns[0]);
      IntComesBack(ns[0]);
    } else {
      IntsComeBack(ns[1..], rest, k - 1);
      assert b[4*k..4*k+4] == tail[4*(k-1)..4*(k-1)+4];
    }
  }

  // ----- records -----

  function Fields(i: Inode): seq<Int32> {
    [i.identifier, i.number, i.uid, i.gid, i.mode, i.size, i.link] + i.blocks
  }

  function Encode(i: Inode): seq<Byte> {
    EncodeInts(Fields(i)) + i.filler
  }

  function Decode(b: seq<Byte>): Inode
    requires |b| == RECORD_SIZE
  {
    Inode(IntAt(b, 0), IntAt(b, 1), IntAt(b, 2), IntAt(b, 3), IntAt(b, 4), IntAt(b, 5), IntAt(b, 6),
      seq(NUMBER_DIRECT_BLOCKS, k requires 0 <= k < NUMBER_DIRECT_BLOCKS => IntAt(b, 7 + k)), b[76..])
  }

  /** Copying an inode to memory and back gives the inode. */
  lemma RecordComesBack(i: Inode)
    requires Shaped(i)
    ensures |Encode(i)| == RECORD_SIZE && Decode(Encode(i)) == i
  {
    var ns := Fields(i);
    forall k | 0 <= k < 19 ensures IntAt(Encode(i), k) == ns[k] {
      IntsComeBack(ns, i.filler, k);
    }
    assert Decode(Encode(i)).blocks == i.blocks;
  }

  /** The four bytes from `at` on are `n`, least significant byte first, in two's complement. */
  predicate Holds(b: seq<Byte>, at: nat, n: Int32) {
    at + 4 <= |b| &&
    b[at] as int + 0x100 * (b[at+1] as int) + 0x1_0000 * (b[at+2] as int) + 0x100_0000 * (b[at+3] as int)
      == if n >= 0 then n as int else n as int + 0x1_0000_0000
  }

  lemma EncodedHolds(n: Int32)
    ensures Holds(EncodeInt(n), 0, n)
  {
    var u: int := if n < 0 then n as int + 0x1_0000_0000 else n as int;
    assert u / 256 / 256 == u / 0x1_0000 && u / 0x1_0000 / 256 == u / 0x100_0000;
  }

  lemma {:induction false} EncodedHoldsAt(ns: seq<Int32>, rest: seq<Byte>, k: nat)
    requires k < |ns|
    ensures Holds(EncodeInts(ns) + rest, 4 * k, ns[k])
  {
    var b := EncodeInts(ns) + rest;
    var tail := EncodeInts(ns[1..]) + rest;
    assert b == EncodeInt(ns[0]) + tail;
    if k == 0 {
      EncodedHolds(ns[0]);
    } else {
      EncodedHoldsAt(ns[1..], rest, k - 1);
    }
  }

  /** Where the fields of the struct lie in its bytes. */
  lemma FieldsInMemory(i: Inode, k: nat)
    requires Shaped(i) && k < 12
    ensures var b := Encode(i);
      && Holds(b, 0, i.identifier) && Holds(b, 4, i.number) && Holds(b, 8, i.uid) && Holds(b, 12, i.gid)
      && Holds(b, 16, i.mode) && Holds(b, 20, i.size) && Holds(b, 24, i.link) && Holds(b, 28 + 4 * k, i.blocks[k])
      && b[76..] == i.filler
  {
    forall j | 0 <= j < 19 ensures Holds(Encode(i), 4 * j, Fields(i)[j]) {
      EncodedHoldsAt(Fields(i), i.filler, j);
    }
    FieldPlaces(i, k);
  }

  lemma FieldPlaces(i: Inode, k: nat)
    requires Shaped(i) && k < 12
    ensures var ns := Fields(i);
      && |ns| == 19 && ns[0] == i.identifier && ns[1] == i.number && ns[2] == i.uid && ns[3] == i.gid
      && ns[4] == i.mode && ns[5] == i.size && ns[6] == i.link && ns[7 + k] == i.blocks[k]
  {
  }
}
