/**
 The byte-addressed write of the root disk driver: sectors are read, changed and written back, and a range of bytes is
 split at sector boundaries.
 */
module DiskWrite {
  import opened Base

  const SECTOR: nat := 512
  /** Sector numbers are passed as 16-bit integers. */
  const SECTORS: nat := 0x1_0000
  const REACH: nat := 0x200_0000

  /** The last of `n` numbers counted from 0 that is `x` modulo the reach. */
  function LastPlace(x: nat, n: nat): (i: nat)
    requires x < n
    ensures x <= i < n <= i + REACH && (i - x) % REACH == 0
  {
    x + (n - 1 - x) / REACH * REACH
  }

  /**
   `b` written from byte `at` on, addresses taken modulo the bytes the driver can reach; what comes later stays when
   there is more.
   */
  ghost function Around(d: seq<Byte>, at: nat, b: seq<Byte>): (r: seq<Byte>)
    ensures |r| == |d|
  {
    seq(|d|, j requires 0 <= j < |d| =>
      var x := (j - at) % REACH;
      if x < |b| then b[LastPlace(x, |b|)] else d[j])
  }

  lemma AroundNothing(d: seq<Byte>, at: nat)
    ensures Around(d, at, []) == d
  {
  }

  lemma AroundIsPatch(d: seq<Byte>, at: nat, b: seq<Byte>)
    requires |d| == REACH && at + |b| <= REACH
    ensures Around(d, at, b) == Patch(d, at, b)
  {
    forall j | 0 <= j < REACH ensures Around(d, at, b)[j] == Patch(d, at, b)[j] {
      assert (j - at) % REACH == if j >= at then j - at else j - at + REACH;
    }
  }

  /** Two writes, the second where the first stopped, are one. */
  lemma AroundContinues(d: seq<Byte>, at: nat, a: seq<Byte>, b: seq<Byte>)
    requires |b| <= REACH
    ensures Around(Around(d, at, a), at + |a|, b) == Around(d, at, a + b)
  {
    forall j | 0 <= j < |d| ensures Around(Around(d, at, a), at + |a|, b)[j] == Around(d, at, a + b)[j] {
      PlaceContinues(j - at, |a|, |b|);
    }
  }

  /** Where the byte at distance `z` comes from: the second write if it reaches that far, else the first. */
  lemma PlaceContinues(z: int, m: nat, n: nat)
    requires n <= REACH
    ensures var x, y := z % REACH, (z - m) % REACH;
      && (y < n ==> x < m + n && LastPlace(y, n) == y && LastPlace(x, m + n) == m + y)
      && (y >= n && x < m ==> LastPlace(x, m + n) == LastPlace(x, m) < m)
      && (y >= n && x >= m ==> x >= m + n)
  {
    var x, y := z % REACH, (z - m) % REACH;
    assert (m + y - x) % REACH == 0;
    if y < n {
      assert x < m + n;
      SamePlace(x, m + n, m + y);
      SamePlace(y, n, y);
    } else if x < m {
      SamePlace(x, m + n, m + y - REACH);
      SamePlace(x, m, m + y - REACH);
    }
  }

  lemma SamePlace(x: nat, n: nat, i: int)
    requires x < n <= i + REACH && i < n && (i - x) % REACH == 0
    ensures LastPlace(x, n) == i
  {
    assert (LastPlace(x, n) - i) % REACH == 0;
  }

  /** A piece of one sector. */
  lemma AroundSector(d: seq<Byte>, sector: nat, offset: nat, b: seq<Byte>)
    requires |d| == REACH && offset + |b| <= SECTOR
    ensures sector % SECTORS * SECTOR + offset + |b| <= REACH
    ensures Patch(d, sector % SECTORS * SECTOR + offset, b) == Around(d, sector * SECTOR + offset, b)
  {
    var at := sector % SECTORS * SECTOR + offset;
    SameAddress(sector, offset);
    AroundIsPatch(d, at, b);
    AroundAgain(d, at, sector / SECTORS, b);
  }

  lemma SameModulo(x: int, k: int)
    ensures (x - k * REACH) % REACH == x % REACH
  {
  }

  /** Addresses a multiple of the reach apart are the same place. */
  lemma AroundAgain(d: seq<Byte>, at: nat, k: nat, b: seq<Byte>)
    ensures Around(d, at + k * REACH, b) == Around(d, at, b)
  {
    forall j | 0 <= j < |d| ensures Around(d, at + k * REACH, b)[j] == Around(d, at, b)[j] {
      SameModulo(j - at, k);
      assert j - (at + k * REACH) == (j - at) - k * REACH;
    }
  }

  lemma SameAddress(sector: nat, offset: nat)
    ensures sector * SECTOR + offset == sector % SECTORS * SECTOR + offset + sector / SECTORS * REACH
  {
  }

  /** A sector read, changed in part and written back is that part changed. */
  lemma SectorChanges(d: seq<Byte>, base: nat, offset: nat, b: seq<Byte>, tmp: seq<Byte>)
    requires base + SECTOR <= |d| && offset + |b| <= SECTOR == |tmp|
    requires offset != 0 || |b| < SECTOR ==> tmp == d[base..base+SECTOR]
    ensures Patch(d, base, Patch(tmp, offset, b)) == Patch(d, base + offset, b)
  {
  }

  // ----- what one call of write does -----

  /** The last sector's share of `n` bytes, put behind the offset of the first, stays within a sector. */
  predicate Fits(pos: nat, n: nat) {
    n == 0 || pos % SECTOR + ((n - 1) % SECTOR + 1) <= SECTOR
  }

  /** The disk after a write, or nothing when the last piece does not fit the sector buffer. */
  ghost function Outcome(d: seq<Byte>, pos: nat, buf: seq<Byte>): Option<seq<Byte>> {
    if Fits(pos, |buf|) then Some(Around(d, pos, buf))
    else if |buf| <= SECTOR then Some(Around(d, pos, buf[..SECTOR - pos % SECTOR]))
    else None
  }

  /** The disk when the last piece overruns the sector buffer: the pieces before it are written. */
  ghost function BeforeOverrun(d: seq<Byte>, pos: nat, buf: seq<Byte>): seq<Byte>
    requires |buf| > SECTOR
  {
    var last := pos % SECTOR + (|buf| - 1) % SECTOR + 1;
    Around(d, pos, buf[..|buf| - last])
  }

  /** Among the bytes the driver can reach, a write does what it ought to, whatever the data, exactly when it fits. */
  lemma RightExactlyWhenItFits(pos: nat, n: nat)
    requires pos + n <= REACH
    ensures Fits(pos, n) <==>
      (forall d: seq<Byte>, buf: seq<Byte> :: |d| == REACH && |buf| == n ==>
        Outcome(d, pos, buf) == Some(Patch(d, pos, buf)))
  {
    if Fits(pos, n) {
      forall d: seq<Byte>, buf: seq<Byte> | |d| == REACH && |buf| == n
        ensures Outcome(d, pos, buf) == Some(Patch(d, pos, buf))
      {
        AroundIsPatch(d, pos, buf);
      }
    } else if n <= SECTOR {
      var d: seq<Byte>, buf: seq<Byte> := seq(REACH, i => 0), seq(n, i => 1);
      var short := buf[..SECTOR - pos % SECTOR];
      AroundIsPatch(d, pos, short);
      assert Patch(d, pos, short)[pos + |short|] == 0;
      assert Patch(d, pos, buf)[pos + |short|] == 1;
      assert Outcome(d, pos, buf) != Some(Patch(d, pos, buf));
    } else {
      var d: seq<Byte>, buf: seq<Byte> := seq(REACH, i => 0), seq(n, i => 1);
      assert Outcome(d, pos, buf).None?;
    }
  }

  /** Otherwise a write of a sector at most ends with the sector it starts in, and the bytes behind are as before. */
  lemma CutShort(d: seq<Byte>, pos: nat, buf: seq<Byte>)
    requires |d| == REACH && pos + |buf| <= REACH && !Fits(pos, |buf|) && |buf| <= 512
    ensures var k := 512 - pos % 512;
      && 0 < k < |buf| && (pos + k) % 512 == 0
      && Outcome(d, pos, buf) == Some(d[..pos] + buf[..k] + d[pos+k..])
  {
    AroundIsPatch(d, pos, buf[..512 - pos % 512]);
  }

  /**
   And of a longer one the whole sectors are written before the last piece, longer than a sector and shorter than two,
   overruns the buffer.
   */
  lemma StopsBeforeOverrun(d: seq<Byte>, pos: nat, buf: seq<Byte>)
    requires |d| == REACH && pos + |buf| <= REACH && !Fits(pos, |buf|) && |buf| > 512
    ensures Outcome(d, pos, buf) == None
    ensures exists k ::
      && 0 < k < |buf| && (pos + k) % 512 == 0 && 512 < |buf| - k < 1024
      && BeforeOverrun(d, pos, buf) == d[..pos] + buf[..k] + d[pos+k..]
  {
    var last := pos % SECTOR + (|buf| - 1) % SECTOR + 1;
    var k := |buf| - last;
    var q, r := (|buf| - 1) / SECTOR, (|buf| - 1) % SECTOR;
    assert k == q * SECTOR - pos % SECTOR;
    assert pos + k == (q + pos / SECTOR) * SECTOR;
    AroundIsPatch(d, pos, buf[..k]);
  }

  /** Behind the bytes the driver can reach, a write lands at the front of the disk. */
  lemma FarWritesWrap(d: seq<Byte>, pos: nat, buf: seq<Byte>)
    ensures Outcome(d, pos + REACH, buf) == Outcome(d, pos, buf)
  {
    SameOffset(pos);
    AroundAgain(d, pos, 1, buf);
    if !Fits(pos, |buf|) && |buf| <= SECTOR {
      AroundAgain(d, pos, 1, buf[..SECTOR - pos % SECTOR]);
    }
  }

  lemma SameOffset(pos: nat)
    ensures (pos + REACH) % SECTOR == pos % SECTOR
  {
  }

  // ----- the driver -----

  class Disk {
    const platter: array<Byte>
    const readTmp: array<Byte>
    const writeTmp: array<Byte>
    var pos: nat

    ghost predicate Valid() {
      && platter.Length == REACH && readTmp.Length == SECTOR && writeTmp.Length == SECTOR
      && platter != readTmp && platter != writeTmp && readTmp != writeTmp
    }

    constructor ()
      ensures Valid() && pos == 0
    {
      platter := new Byte[REACH](_ => 0);
      readTmp := new Byte[SECTOR](_ => 0);
      writeTmp := new Byte[SECTOR](_ => 0);
      pos := 0;
    }

    /** _read into a buffer; a count that leaves the sector is refused. */
    method ReadSector(ans: array<Byte>, sector: nat, offset: nat, count: nat)
      requires Valid() && ans != readTmp && ans != platter && offset <= SECTOR
      requires count <= SECTOR - offset ==> count <= ans.Length
      modifies readTmp, ans
      ensures count > SECTOR - offset ==> ans[..] == old(ans[..])
      ensures count <= SECTOR - offset ==>
        var at := sector % SECTORS * SECTOR + offset;
        ans[..] == platter[at..at+count] + old(ans[count..])
    {
      if count > SECTOR - offset {
        return;
      }
      var base := sector % SECTORS * SECTOR;
      for b := 0 to SECTOR
        invariant forall k :: 0 <= k < b ==> readTmp[k] == platter[base + k]
        invariant forall k :: 0 <= k < ans.Length ==> ans[k] == old(ans[k])
      {
        readTmp[b] := platter[base + b];
      }
      for i := 0 to count
        invariant forall k :: 0 <= k < SECTOR ==> readTmp[k] == platter[base + k]
        invariant forall k :: 0 <= k < i ==> ans[k] == platter[base + offset + k]
        invariant forall k :: i <= k < ans.Length ==> ans[k] == old(ans[k])
      {
        ans[i] := readTmp[offset + i];
      }
    }

    /**
     _write: the sector is read first unless all of it is replaced.  `ok` is false when the data overruns the sector
     buffer; nothing has gone to the disk then.
     */
    method WriteSector(msg: seq<Byte>, sector: nat, offset: nat) returns (ok: bool)
      requires Valid() && offset < SECTOR
      modifies readTmp, writeTmp, platter
      ensures ok <==> offset + |msg| <= SECTOR
      ensures platter[..] == if ok then Around(old(platter[..]), sector * SECTOR + offset, msg) else old(platter[..])
    {
      Load(offset == 0 && |msg| >= SECTOR, sector);
      ok := offset + |msg| <= SECTOR;
      if ok {
        ghost var was, tmp := platter[..], writeTmp[..];
        AroundSector(was, sector, offset, msg);
        FillBuffer(msg, offset);
        WriteOut(sector % SECTORS * SECTOR);
        SectorChanges(was, sector % SECTORS * SECTOR, offset, msg, tmp);
      }
    }

    method Load(whole: bool, sector: nat)
      requires Valid()
      modifies readTmp, writeTmp
      ensures !whole ==> var base := sector % SECTORS * SECTOR; writeTmp[..] == platter[..][base..base+SECTOR]
    {
      if !whole {
        ReadSector(writeTmp, sector, 0, SECTOR);
      }
    }

    /** The new data put into the sector buffer. */
    method FillBuffer(msg: seq<Byte>, offset: nat)
      requires Valid() && offset + |msg| <= SECTOR
      modifies writeTmp
      ensures writeTmp[..] == Patch(old(writeTmp[..]), offset, msg)
    {
      for i := 0 to |msg|
        invariant writeTmp[..] == Patch(old(writeTmp[..]), offset, msg[..i])
      {
        writeTmp[offset + i] := msg[i];
        assert msg[..i+1] == msg[..i] + [msg[i]];
      }
      assert msg[..|msg|] == msg;
    }

    /** The sector buffer sent to the disk. */
    method WriteOut(base: nat)
      requires Valid() && base + SECTOR <= REACH
      modifies platter
      ensures platter[..] == Patch(old(platter[..]), base, writeTmp[..])
    {
      for b := 0 to SECTOR
        invariant platter[..] == Patch(old(platter[..]), base, writeTmp[..b])
      {
        platter[base + b] := writeTmp[b];
        assert writeTmp[..b+1] == writeTmp[..b] + [writeTmp[b]];
      }
      assert writeTmp[..SECTOR] == writeTmp[..];
    }

    /** write; `ok` is false when the last piece overruns the sector buffer, after the pieces before it. */
    method Write(buf: seq<Byte>) returns (written: nat, ok: bool)
      requires Valid()
      modifies this`pos, readTmp, writeTmp, platter
      ensures ok == Outcome(old(platter[..]), old(pos), buf).Some?
      ensures ok ==> written == |buf| && pos == old(pos) + |buf|
      ensures ok ==> platter[..] == Outcome(old(platter[..]), old(pos), buf).value
      ensures !ok ==> pos == old(pos) && platter[..] == BeforeOverrun(old(platter[..]), old(pos), buf)
    {
      var bytes := |buf|;
      ghost var was := platter[..];
      AroundNothing(was, pos);
      if bytes == 0 {
        assert buf == [];
        return 0, true;
      }
      written := bytes;
      ok := WritePieces(buf);
      ghost var n := |buf|;
      assert buf[..n] == buf;
      if ok {
        pos := pos + written;
      }
    }

    /** The loop of write. */
    method WritePieces(buf: seq<Byte>) returns (ok: bool)
      requires Valid() && buf != []
      modifies readTmp, writeTmp, platter
      ensures ok <==> Fits(pos, |buf|) || |buf| <= SECTOR
      ensures ok ==> platter[..] == Around(old(platter[..]), pos,
          buf[..|buf| - Left(|buf|, pos % SECTOR, Pieces(|buf|))])
      ensures !ok ==> platter[..] == BeforeOverrun(old(platter[..]), pos, buf)
    {
      var bytes := |buf|;
      var sector, offset := pos / SECTOR, pos % SECTOR;
      ghost var was := platter[..];
      AroundNothing(was, pos);
      var sectors := (bytes - 1) / SECTOR + 1;
      assert buf[..0] == [];
      ok := true;
      for i := 0 to sectors
        invariant ok && bytes == Left(|buf|, offset, i)
        invariant platter[..] == Around(was, pos, buf[..|buf|-bytes])
        invariant i == sectors > 1 ==> Fits(pos, |buf|)
      {
        var size := PieceSize(bytes, offset, i, sectors, |buf|);
        ok := WritePiece(buf, i, size, sector, offset, was, |buf| - bytes);
        if !ok {
          return;
        }
        bytes := bytes - size;
      }
    }

    /** One piece, written where the ones before it stop. */
    method WritePiece(buf: seq<Byte>, i: nat, size: nat, sector: nat, offset: nat, ghost was: seq<Byte>,
        ghost done: nat)
      returns (ok: bool)
      requires Valid() && offset < SECTOR && done + size <= |buf| && |was| == REACH
      requires if i == 0 then done == 0 && offset + size <= SECTOR else done == i * SECTOR - offset
      requires platter[..] == Around(was, sector * SECTOR + offset, buf[..done])
      modifies readTmp, writeTmp, platter
      ensures ok <==> i == 0 || size <= SECTOR
      ensures platter[..] == Around(was, sector * SECTOR + offset, buf[..if ok then done + size else done])
    {
      if i == 0 {
        ok := WriteSector(buf[..size], sector, offset);
        assert buf[done..done+size] == buf[..size];
      } else {
        var from := i * SECTOR - offset;
        assert sector * SECTOR + offset + done == (sector + i) * SECTOR;
        ok := WriteSector(buf[from..from+size], sector + i, 0);
      }
      if ok {
        AroundContinues(was, sector * SECTOR + offset, buf[..done], buf[done..done+size]);
        assert buf[..done] + buf[done..done+size] == buf[..done+size];
      }
    }

    /** The choice of write for piece `i`. */
    method PieceSize(bytes: nat, offset: nat, i: nat, sectors: nat, ghost n: nat) returns (size: nat)
      requires n > 0 && offset < SECTOR && i < sectors == (n - 1) / SECTOR + 1 && bytes == Left(n, offset, i)
      ensures size <= bytes && bytes - size == Left(n, offset, i + 1)
      ensures i == 0 ==> offset + size <= SECTOR
      ensures 0 < i < sectors - 1 ==> size == SECTOR
      ensures 0 < i == sectors - 1 ==> size == offset + ((n - 1) % SECTOR + 1)
    {
      if i == 0 {
        if bytes > SECTOR {
          size := SECTOR - offset;
        } else {
          if SECTOR - offset <= bytes {
            size := SECTOR - offset;
          } else {
            size := bytes;
          }
        }
      } else if i == sectors - 1 {
        size := bytes;
      } else {
        size := SECTOR;
      }
    }
  }

  function Pieces(n: nat): nat {
    if n == 0 then 0 else (n - 1) / SECTOR + 1
  }

  /** Bytes left before piece `i`. */
  function Left(n: nat, offset: nat, i: nat): int {
    if i == 0 then n
    else if n <= SECTOR then (if offset + n > SECTOR then n - (SECTOR - offset) else 0)
    else if i < (n - 1) / SECTOR + 1 then n - (i * SECTOR - offset)
    else 0
  }
}
