/**
 Chinux's inode table and the append to a file: records read and written inside their sectors, and file contents that
 stay in place or move to a larger extent.
 */
module FileBlocks {
  import opened Base
  import opened BlockBitmap
  import opened InodeRecords

  const BLOCK_SIZE: nat := 512
  const DISK_SIZE: nat := 20971520
  const INODETABLESECTOR: nat := 102
  /** Sectors of the inode table. */
  const TABLE_SECTORS: nat := 80
  const INODEMAP_WORDS: nat := 2560
  /** Numbers the inode map has bits for; the table has records for the first 320 of them. */
  const INODES: nat := INODEMAP_WORDS * WORD_SIZE

  // ----- byte ranges of the disk -----

  /** A range reads back what was written to it; a range apart from it reads as before. */
  lemma PatchReads(d: seq<Byte>, at: nat, b: seq<Byte>, from: nat, n: nat)
    requires at + |b| <= |d| && from + n <= |d|
    ensures at <= from && from + n <= at + |b| ==> Patch(d, at, b)[from..from+n] == b[from-at..from-at+n]
    ensures from + n <= at || at + |b| <= from ==> Patch(d, at, b)[from..from+n] == d[from..from+n]
  {
    var r := Patch(d, at, b)[from..from+n];
    if at <= from && from + n <= at + |b| {
      forall k | 0 <= k < n ensures r[k] == b[from-at..from-at+n][k] {
        PatchAt(d, at, b, from + k);
      }
    } else if from + n <= at || at + |b| <= from {
      forall k | 0 <= k < n ensures r[k] == d[from..from+n][k] {
        PatchAt(d, at, b, from + k);
      }
    }
  }

  lemma PatchAt(d: seq<Byte>, at: nat, b: seq<Byte>, k: nat)
    requires at + |b| <= |d| && k < |d|
    ensures Patch(d, at, b)[k] == if at <= k < at + |b| then b[k-at] else d[k]
  {
  }

  lemma PartOfPart(d: seq<Byte>, from: nat, n: nat, at: nat, m: nat)
    requires from + n <= |d| && at + m <= n
    ensures d[from..from+n][at..at+m] == d[from+at..from+at+m]
  {
    var part := d[from..from+n];
    var a, b := part[at..at+m], d[from+at..from+at+m];
    forall k | 0 <= k < m ensures a[k] == b[k] {
      assert a[k] == part[at+k] == d[from+at+k];
    }
    assert a == b;
  }

  // ----- the inode table -----

  /** Where the record of an inode lies. */
  function RecordAt(number: nat): nat {
    (INODETABLESECTOR + number / 4) * BLOCK_SIZE + RECORD_SIZE * (number % 4)
  }

  /** Four records fill a sector, so records follow one another without gaps. */
  lemma RecordsArePacked(number: nat)
    ensures RecordAt(number) == INODETABLESECTOR * BLOCK_SIZE + RECORD_SIZE * number
  {
  }

  /** The record lies inside the table exactly for the inode numbers below 320. */
  lemma InsideTable(number: nat)
    ensures RecordAt(number) + RECORD_SIZE <= (INODETABLESECTOR + TABLE_SECTORS) * BLOCK_SIZE
        <==> number < 4 * TABLE_SECTORS
  {
    RecordsArePacked(number);
  }

  ghost function Record(d: seq<Byte>, number: nat): Inode
    requires RecordAt(number) + RECORD_SIZE <= |d|
  {
    Decode(d[RecordAt(number)..RecordAt(number)+RECORD_SIZE])
  }

  /** fs_get_inode: nothing for a number whose bit is clear. */
  ghost function Lookup(d: seq<Byte>, used: seq<bool>, number: nat): Option<Inode>
    requires number < |used| && RecordAt(number) + RECORD_SIZE <= |d|
  {
    if used[number] then Some(Record(d, number)) else None
  }

  /** An inode inserted in the table is found under its number, and every other number finds what it found before. */
  lemma InsertedIsFound(d: seq<Byte>, used: seq<bool>, i: Inode, other: nat)
    requires Shaped(i) && 0 <= i.number < |used| && other < |used|
    requires RecordAt(i.number) + RECORD_SIZE <= |d| && RecordAt(other) + RECORD_SIZE <= |d|
    ensures |Encode(i)| == RECORD_SIZE
    ensures var d' := Patch(d, RecordAt(i.number), Encode(i));
      Lookup(d', used[i.number := true], other) == if other == i.number then Some(i) else Lookup(d, used, other)
  {
    RecordComesBack(i);
    RecordsArePacked(i.number);
    RecordsArePacked(other);
    PatchReads(d, RecordAt(i.number), Encode(i), RecordAt(other), RECORD_SIZE);
  }

  /** A record replaced in a copy of its sector, and the sector written back, is the record replaced on the disk. */
  lemma SectorCarriesRecord(d: seq<Byte>, number: nat, b: seq<Byte>)
    requires |b| == RECORD_SIZE && RecordAt(number) + RECORD_SIZE <= |d|
    requires (INODETABLESECTOR + number / 4 + 1) * BLOCK_SIZE <= |d|
    ensures
      var s := (INODETABLESECTOR + number / 4) * BLOCK_SIZE;
      Patch(d, s, Patch(d[s..s+BLOCK_SIZE], RECORD_SIZE * (number % 4), b)) == Patch(d, RecordAt(number), b)
  {
  }

  // ----- files -----

  ghost predicate HeaderInUse(bits: seq<bool>) {
    HEADER_BLOCKS <= |bits| && forall b :: 0 <= b < HEADER_BLOCKS ==> bits[b]
  }

  /** The bytes of a file: the start of its extent. */
  ghost function Contents(d: seq<Byte>, i: Inode): seq<Byte>
    requires |i.blocks| > 0 && 0 <= i.blocks[0] && 0 <= i.size && i.blocks[0] * BLOCK_SIZE + i.size <= |d|
  {
    d[i.blocks[0]*BLOCK_SIZE..i.blocks[0]*BLOCK_SIZE+i.size]
  }

  /** A file whose extent lies behind the header blocks and on the disk, and holds its bytes. */
  ghost predicate FileOk(i: Inode) {
    && Shaped(i) && 0 <= i.number < INODES
    && HEADER_BLOCKS <= i.blocks[0] && 0 <= i.blocks[1] && i.blocks[0] + i.blocks[1] <= BITMAP_SIZE
    && 0 <= i.size <= i.blocks[1] * BLOCK_SIZE
  }

  /** As few blocks as hold `bytes` bytes and one more. */
  function BlocksFor(bytes: nat): (r: nat)
    ensures (r - 1) * BLOCK_SIZE < bytes + 1 <= r * BLOCK_SIZE
  {
    bytes / BLOCK_SIZE + 1
  }

  /** The append has to move the file. */
  ghost predicate Moves(i: Inode, n: nat)
    requires FileOk(i)
  {
    BlocksFor(i.size + n) > i.blocks[1]
  }

  /** The append finds room. */
  ghost predicate HasRoom(s: Space, i: Inode, n: nat)
    requires FileOk(i) && BITMAP_SIZE <= |s.bits|
  {
    !Moves(i, n) || (s.freeBlocks >= 100 && HasRun(s.bits, BITMAP_SIZE, BlocksFor(i.size + n)))
  }

  /** The append has to move the file, and the search answers a short tail. */
  ghost predicate RunsOffDisk(s: Space, i: Inode, n: nat)
    requires FileOk(i) && BITMAP_SIZE <= |s.bits|
  {
    && Moves(i, n) && s.freeBlocks >= 100
    && !HasRun(s.bits, BITMAP_SIZE, BlocksFor(i.size + n)) && !s.bits[BITMAP_SIZE-1]
  }

  /** The inode after an append that found room for it at block `first`. */
  ghost predicate Grown(i: Inode, j: Inode, n: nat, s: Space)
    requires FileOk(i) && BITMAP_SIZE <= |s.bits|
  {
    && FileOk(j) && j == i.(size := j.size, blocks := j.blocks) && j.size == i.size + n
    && j.blocks[2..] == i.blocks[2..]
    && if Moves(i, n) then j.blocks[1] == BlocksFor(i.size + n)
        && IsFirstFit(s.bits, BITMAP_SIZE, j.blocks[1], j.blocks[0])
       else j.blocks[0] == i.blocks[0] && j.blocks[1] == i.blocks[1]
  }

  /** The space once the append has its extent: a new one is taken when the file moves. */
  ghost function Taken(s: Space, i: Inode, first: int, required: int, n: nat): Space
    requires FileOk(i)
  {
    if !Moves(i, n) then s
    else Space(Fill(s.bits, first, required, true), s.freeBlocks - required, s.usedBlocks + required)
  }

  /** The space after an append: the old extent is given back in any case. */
  ghost function SpaceAfter(s: Space, i: Inode, j: Inode, n: nat): Space
    requires FileOk(i) && FileOk(j)
  {
    Release(Taken(s, i, j.blocks[0], j.blocks[1], n), i.blocks[0], i.blocks[1])
  }

  /** The bytes of the disk after an append. */
  ghost function DiskAfter(d: seq<Byte>, j: Inode, written: seq<Byte>): (r: seq<Byte>)
    requires FileOk(j) && |written| == j.blocks[1] * BLOCK_SIZE && |d| == DISK_SIZE && |Encode(j)| == RECORD_SIZE
    ensures |r| == |d|
  {
    Patch(Patch(d, j.blocks[0] * BLOCK_SIZE, written), RecordAt(j.number), Encode(j))
  }

  /** The record of every number the inode map has a bit for lies on the disk, in or behind the table. */
  lemma RecordOnDisk(number: nat)
    requires number < INODES
    ensures RecordAt(number) + RECORD_SIZE <= DISK_SIZE
    ensures (INODETABLESECTOR + number / 4 + 1) * BLOCK_SIZE <= DISK_SIZE
  {
    RecordsArePacked(number);
  }

  /** The record of inode number `m` lies in front of the extent or behind it. */
  predicate RecordApart(m: nat, i: Inode)
    requires |i.blocks| > 1
  {
    RecordAt(m) + RECORD_SIZE <= i.blocks[0] * BLOCK_SIZE || (i.blocks[0] + i.blocks[1]) * BLOCK_SIZE <= RecordAt(m)
  }

  /** A record inside the table is apart from every file; one behind it may lie in a file. */
  lemma TableIsApart(m: nat, i: Inode)
    requires m < 4 * TABLE_SECTORS && FileOk(i)
    ensures RecordApart(m, i)
  {
    RecordsArePacked(m);
  }

  /** Writing the record of number `m` leaves a file's blocks alone, whatever the record, exactly when it lies apart. */
  lemma RecordHitsFile(m: nat, i: Inode)
    requires FileOk(i) && m < INODES && i.blocks[1] > 0
    ensures RecordApart(m, i) <==>
      (forall d: seq<Byte>, b: seq<Byte> :: |d| == DISK_SIZE && |b| == RECORD_SIZE ==>
        Extent(Patch(d, RecordAt(m), b), i) == Extent(d, i))
  {
    RecordOnDisk(m);
    if RecordApart(m, i) {
      forall d: seq<Byte>, b: seq<Byte> | |d| == DISK_SIZE && |b| == RECORD_SIZE
        ensures Extent(Patch(d, RecordAt(m), b), i) == Extent(d, i)
      {
        PatchReads(d, RecordAt(m), b, i.blocks[0] * BLOCK_SIZE, i.blocks[1] * BLOCK_SIZE);
      }
    } else {
      RecordInside(m, i);
    }
  }

  /** Records do not straddle blocks: one that is not apart lies inside. */
  lemma RecordInside(m: nat, i: Inode)
    requires FileOk(i) && m < INODES && !RecordApart(m, i)
    ensures exists d: seq<Byte>, b: seq<Byte> ::
      |d| == DISK_SIZE && |b| == RECORD_SIZE && Extent(Patch(d, RecordAt(m), b), i) != Extent(d, i)
  {
    RecordOnDisk(m);
    var d: seq<Byte>, b: seq<Byte> := seq(DISK_SIZE, i => 0), seq(RECORD_SIZE, i => 1);
    ExtentChanges(d, RecordAt(m), b, i);
  }

  lemma ExtentChanges(d: seq<Byte>, at: nat, b: seq<Byte>, i: Inode)
    requires FileOk(i) && |d| == DISK_SIZE && b != [] && at + |b| <= |d| && b[0] != d[at]
    requires i.blocks[0] * BLOCK_SIZE <= at < (i.blocks[0] + i.blocks[1]) * BLOCK_SIZE
    ensures Extent(Patch(d, at, b), i) != Extent(d, i)
  {
    var p, k := Patch(d, at, b), at - i.blocks[0] * BLOCK_SIZE;
    PatchAt(d, at, b, at);
    assert Extent(p, i)[k] == p[at] && Extent(d, i)[k] == d[at];
  }

  ghost function Extent(d: seq<Byte>, i: Inode): seq<Byte>
    requires FileOk(i) && |d| == DISK_SIZE
  {
    d[i.blocks[0]*BLOCK_SIZE..(i.blocks[0]+i.blocks[1])*BLOCK_SIZE]
  }

  /** An append written: the file's bytes are the old ones followed by the new. */
  lemma AppendedContents(d: seq<Byte>, i: Inode, j: Inode, insert: seq<Byte>, buf: seq<Byte>)
    requires |d| == DISK_SIZE && FileOk(i) && FileOk(j) && j.size == i.size + |buf|
    requires |insert| == j.blocks[1] * BLOCK_SIZE && insert[..j.size] == Extent(d, i)[..i.size] + buf
    requires RecordApart(j.number, j)
    ensures |Encode(j)| == RECORD_SIZE
    ensures Contents(DiskAfter(d, j, insert), j) == Contents(d, i) + buf
  {
    RecordComesBack(j);
    var at := j.blocks[0] * BLOCK_SIZE;
    PatchReads(d, at, insert, at, j.size);
    RecordOnDisk(j.number);
    PatchReads(Patch(d, at, insert), RecordAt(j.number), Encode(j), at, j.size);
    assert Extent(d, i)[..i.size] == Contents(d, i);
  }

  /** Every byte that is neither in the extent of `j` nor in its record is the same. */
  ghost predicate OthersKept(d: seq<Byte>, d': seq<Byte>, j: Inode)
    requires FileOk(j)
  {
    && |d| == |d'| == DISK_SIZE
    && forall k :: 0 <= k < DISK_SIZE && !InExtent(j, k) && !InRecord(j.number, k) ==> d'[k] == d[k]
  }

  ghost predicate InExtent(j: Inode, k: nat)
    requires FileOk(j)
  {
    j.blocks[0] * BLOCK_SIZE <= k < (j.blocks[0] + j.blocks[1]) * BLOCK_SIZE
  }

  predicate InRecord(number: nat, k: nat) {
    RecordAt(number) <= k < RecordAt(number) + RECORD_SIZE
  }

  lemma AppendKeepsOthers(d: seq<Byte>, j: Inode, written: seq<Byte>)
    requires |d| == DISK_SIZE && FileOk(j) && |written| == j.blocks[1] * BLOCK_SIZE
    ensures |Encode(j)| == RECORD_SIZE && OthersKept(d, DiskAfter(d, j, written), j)
  {
    RecordComesBack(j);
  }

  /** `j` is found under its number, and what was found before under every other whose record the file leaves alone. */
  ghost predicate TableHas(d: seq<Byte>, used: seq<bool>, d': seq<Byte>, used': seq<bool>, j: Inode) {
    && |d| == |d'| == DISK_SIZE && |used| == |used'| == INODES && FileOk(j)
    && LookupInTable(d', used', j.number) == Some(j)
    && forall m :: 0 <= m < INODES && m != j.number && RecordApart(m, j) ==>
        LookupInTable(d', used', m) == LookupInTable(d, used, m)
  }

  ghost function LookupInTable(d: seq<Byte>, used: seq<bool>, m: nat): Option<Inode>
    requires |d| == DISK_SIZE && m < |used| && m < INODES
  {
    RecordOnDisk(m);
    Lookup(d, used, m)
  }

  lemma AppendUpdatesTable(d: seq<Byte>, used: seq<bool>, j: Inode, written: seq<Byte>)
    requires |d| == DISK_SIZE && FileOk(j) && |written| == j.blocks[1] * BLOCK_SIZE && |used| == INODES
    ensures |Encode(j)| == RECORD_SIZE && TableHas(d, used, DiskAfter(d, j, written), used[j.number := true], j)
  {
    RecordComesBack(j);
    var at := j.blocks[0] * BLOCK_SIZE;
    var mid := Patch(d, at, written);
    forall m | 0 <= m < INODES && (m == j.number || RecordApart(m, j))
      ensures LookupInTable(DiskAfter(d, j, written), used[j.number := true], m)
          == if m == j.number then Some(j) else LookupInTable(d, used, m)
    {
      RecordOnDisk(m);
      RecordOnDisk(j.number);
      InsertedIsFound(mid, used, j, m);
      PatchReads(d, at, written, RecordAt(m), RECORD_SIZE);
    }
  }

  /** All that an append of `buf` does: inode, space, disk and table become the primed ones. */
  ghost predicate Appended(i: Inode, s: Space, d: seq<Byte>, used: seq<bool>, buf: seq<Byte>, j: Inode, s': Space,
      d': seq<Byte>, used': seq<bool>)
    requires FileOk(i) && BITMAP_SIZE <= |s.bits| && |d| == DISK_SIZE
  {
    && Grown(i, j, |buf|, s) && s' == SpaceAfter(s, i, j, |buf|)
    && |d'| == DISK_SIZE && (RecordApart(j.number, j) ==> Contents(d', j) == Contents(d, i) + buf)
    && OthersKept(d, d', j) && TableHas(d, used, d', used', j)
  }

  lemma AppendDone(d: seq<Byte>, used: seq<bool>, i: Inode, j: Inode, s: Space, insert: seq<Byte>, buf: seq<Byte>)
    requires |d| == DISK_SIZE && FileOk(i) && BITMAP_SIZE <= |s.bits| && Grown(i, j, |buf|, s)
        && |used| == INODES
    requires |insert| == j.blocks[1] * BLOCK_SIZE && insert[..j.size] == Extent(d, i)[..i.size] + buf
    ensures |Encode(j)| == RECORD_SIZE
    ensures
      var d' := DiskAfter(d, j, insert);
      (RecordApart(j.number, j) ==> Contents(d', j) == Contents(d, i) + buf) && OthersKept(d, d', j)
        && TableHas(d, used, d', used[j.number := true], j)
  {
    if RecordApart(j.number, j) { AppendedContents(d, i, j, insert, buf); }
    AppendKeepsOthers(d, j, insert);
    AppendUpdatesTable(d, used, j, insert);
  }

  // ----- the file system -----

  /** An inode in memory. */
  class INode {
    var data: Inode

    constructor (data: Inode)
      ensures this.data == data
    {
      this.data := data;
    }
  }

  /** Memory from malloc: nothing is known about its bytes. */
  method Malloc(n: nat) returns (b: seq<Byte>)
    ensures |b| == n
  {
    b := seq(n, i => 0);
  }

  class FileSystem {
    const disk: array<Byte>
    const inodeMap: Bitmap
    const space: BlockMap

    ghost predicate Valid()
      reads space, space.bitmap.words
    {
      && disk.Length == DISK_SIZE && inodeMap.words.Length == INODEMAP_WORDS
      && space.Valid() && inodeMap.words != space.bitmap.words
      && HeaderInUse(space.Bits())
    }

    /** An empty disk: init_bitmap marks the header blocks. */
    constructor ()
      ensures Valid() && space.freeBlocks == BITMAP_SIZE && space.usedBlocks == 0
      ensures fresh(disk) && fresh(inodeMap) && fresh(inodeMap.words) && fresh(space) && fresh(space.bitmap.words)
    {
      disk := new Byte[DISK_SIZE](_ => 0);
      inodeMap := new Bitmap(INODEMAP_WORDS);
      space := new BlockMap();
      new;
      space.bitmap.FillRun(0, HEADER_BLOCKS, true);
    }

    /** read_disk */
    method ReadDisk(sector: nat, count: nat) returns (b: seq<Byte>)
      requires sector * BLOCK_SIZE + count <= disk.Length
      ensures b == disk[..][sector*BLOCK_SIZE..sector*BLOCK_SIZE+count]
    {
      b := disk[sector*BLOCK_SIZE..sector*BLOCK_SIZE+count];
    }

    /** write_disk */
    method WriteDisk(sector: nat, msg: seq<Byte>)
      requires sector * BLOCK_SIZE + |msg| <= disk.Length
      modifies disk
      ensures disk[..] == Patch(old(disk[..]), sector * BLOCK_SIZE, msg)
    {
      var at := sector * BLOCK_SIZE;
      for k := 0 to |msg|
        invariant disk[..] == Patch(old(disk[..]), at, msg[..k])
      {
        disk[at + k] := msg[k];
        assert msg[..k+1] == msg[..k] + [msg[k]];
      }
      assert msg[..|msg|] == msg;
    }

    /** fs_get_inode */
    method GetInode(number: nat) returns (r: Option<Inode>)
      requires Valid() && number < INODES
      ensures r == LookupInTable(disk[..], inodeMap.Bits(), number)
    {
      RecordOnDisk(number);
      var free := inodeMap.IsFree(number);
      if free {
        return None;
      }
      var sector := ReadDisk(INODETABLESECTOR + number / 4, BLOCK_SIZE);
      var at := RECORD_SIZE * (number % 4);
      PartOfPart(disk[..], (INODETABLESECTOR + number / 4) * BLOCK_SIZE, BLOCK_SIZE, at, RECORD_SIZE);
      r := Some(Decode(sector[at..at+RECORD_SIZE]));
    }

    /** fs_insert_inode */
    method InsertInode(i: Inode)
      requires Valid() && Shaped(i) && 0 <= i.number < INODES
      modifies disk, inodeMap.words
      ensures |Encode(i)| == RECORD_SIZE && RecordAt(i.number) + RECORD_SIZE <= DISK_SIZE
      ensures disk[..] == Patch(old(disk[..]), RecordAt(i.number), Encode(i))
      ensures inodeMap.Bits() == old(inodeMap.Bits())[i.number := true]
    {
      RecordComesBack(i);
      RecordOnDisk(i.number);
      var free := inodeMap.IsFree(i.number);
      if free {
        inodeMap.SetBit(i.number);
      }
      WriteRecord(i.number, Encode(i));
    }

    /** A record replaced in its sector. */
    method WriteRecord(number: nat, record: seq<Byte>)
      requires disk.Length == DISK_SIZE && number < INODES && |record| == RECORD_SIZE
      modifies disk
      ensures RecordAt(number) + RECORD_SIZE <= DISK_SIZE
      ensures disk[..] == Patch(old(disk[..]), RecordAt(number), record)
    {
      RecordOnDisk(number);
      var s := INODETABLESECTOR + number / 4;
      var sector := ReadDisk(s, BLOCK_SIZE);
      var at := RECORD_SIZE * (number % 4);
      SectorCarriesRecord(disk[..], number, record);
      WriteDisk(s, sector[..at] + record + sector[at+RECORD_SIZE..]);
    }

    /**
     write_inode: the bytes are appended in place while the extent has room for one more, else the file moves to a new
     extent; the answer is the number of bytes in any case.  `ok` is false when the search hands out blocks past the
     end of the disk, to which the file would be written.
     */
    method WriteInode(inode: INode, buf: seq<Byte>) returns (r: int, ok: bool)
      requires Valid() && FileOk(inode.data)
      modifies inode, disk, inodeMap.words, space`freeBlocks, space`usedBlocks, space.bitmap.words
      ensures r == |buf|
      ensures !ok <==> old(RunsOffDisk(space.View(), inode.data, |buf|))
      ensures ok ==> Valid()
      ensures ok ==>
        if old(HasRoom(space.View(), inode.data, |buf|)) then
          Appended(old(inode.data), old(space.View()), old(disk[..]), old(inodeMap.Bits()), buf,
            inode.data, space.View(), disk[..], inodeMap.Bits())
        else
          inode.data == old(inode.data) && disk[..] == old(disk[..]) && space.View() == old(space.View())
    {
      r := |buf|;
      ghost var s := space.View();
      var first, required;
      first, required, ok := FindRoom(inode.data, |buf|);
      if ok && first != -1 {
        Append(inode, first, required, buf, s);
      }
    }

    /** Where the file goes: its own extent, or a new one that is taken. */
    method FindRoom(i: Inode, n: nat) returns (first: int, required: int, ok: bool)
      requires Valid() && FileOk(i)
      modifies space`freeBlocks, space`usedBlocks, space.bitmap.words
      ensures !ok <==> RunsOffDisk(old(space.View()), i, n)
      ensures ok ==> Valid() && (first == -1 <==> !HasRoom(old(space.View()), i, n))
      ensures ok ==>
        space.View() == if first == -1 then old(space.View()) else Taken(old(space.View()), i, first, required, n)
      ensures ok && first != -1 ==> IsPlace(old(space.View()), i, n, first, required)
    {
      required := BlocksFor(i.size + n);
      ok := true;
      if required > i.blocks[1] {
        first, ok := space.SearchFreeBlocks(required);
        ok := ok && (first == -1 || first + required <= BITMAP_SIZE);
      } else {
        first, required := i.blocks[0], i.blocks[1];
      }
    }

    method Append(inode: INode, first: nat, required: nat, buf: seq<Byte>, ghost s: Space)
      requires Valid() && FileOk(inode.data) && BITMAP_SIZE <= |s.bits| && HeaderInUse(s.bits)
      requires IsPlace(s, inode.data, |buf|, first, required)
      requires space.View() == Taken(s, inode.data, first, required, |buf|)
      modifies inode, disk, inodeMap.words, space`freeBlocks, space`usedBlocks, space.bitmap.words
      ensures Valid()
      ensures Appended(old(inode.data), s, old(disk[..]), old(inodeMap.Bits()), buf,
        inode.data, space.View(), disk[..], inodeMap.Bits())
    {
      var i := inode.data;
      ghost var d, used := disk[..], inodeMap.Bits();
      GrownFits(i, |buf|, s, first, required);
      var j := i.(blocks := [first, required] + i.blocks[2..], size := i.size + |buf|);
      ghost var insert := Store(i, j, buf);
      inode.data := j;
      AppendDone(d, used, i, j, s, insert, buf);
    }

    /** The new extent is written, the old one given back, and the inode put in the table. */
    method Store(i: Inode, j: Inode, buf: seq<Byte>) returns (ghost insert: seq<Byte>)
      requires Valid() && FileOk(i) && FileOk(j) && i.blocks[1] <= j.blocks[1] && j.size == i.size + |buf|
      modifies disk, inodeMap.words, space`freeBlocks, space`usedBlocks, space.bitmap.words
      ensures Valid() && |insert| == j.blocks[1] * BLOCK_SIZE && |Encode(j)| == RECORD_SIZE
      ensures insert[..j.size] == Extent(old(disk[..]), i)[..i.size] + buf
      ensures disk[..] == DiskAfter(old(disk[..]), j, insert)
          && inodeMap.Bits() == old(inodeMap.Bits())[j.number := true]
      ensures space.View() == Release(old(space.View()), i.blocks[0], i.blocks[1])
    {
      insert := WriteExtent(i, j.blocks[0], j.blocks[1], buf);
      space.FreeUsedBlocks(i.blocks[0], i.blocks[1]);
      InsertInode(j);
    }

    /** The file's bytes and the new ones, written to the extent at `first`. */
    method WriteExtent(i: Inode, first: nat, required: nat, buf: seq<Byte>) returns (ghost insert: seq<Byte>)
      requires disk.Length == DISK_SIZE && FileOk(i)
      requires first + required <= BITMAP_SIZE && i.blocks[1] <= required && i.size + |buf| <= required * BLOCK_SIZE
      modifies disk
      ensures |insert| == required * BLOCK_SIZE && disk[..] == Patch(old(disk[..]), first * BLOCK_SIZE, insert)
      ensures insert[..i.size+|buf|] == Extent(old(disk[..]), i)[..i.size] + buf
    {
      ghost var d := disk[..];
      var extent := ReadDisk(i.blocks[0], i.blocks[1] * BLOCK_SIZE);
      var junk := Malloc(required * BLOCK_SIZE);
      var copied := extent + junk[|extent|..];
      var bytes := copied[..i.size] + buf + copied[i.size+|buf|..];
      WriteDisk(first, bytes);
      assert extent == Extent(d, i);
      insert := bytes;
    }
  }

  /** An extent for the append: the one it has, or the first that fits. */
  ghost predicate IsPlace(s: Space, i: Inode, n: nat, first: int, required: int)
    requires FileOk(i) && BITMAP_SIZE <= |s.bits|
  {
    if Moves(i, n) then required == BlocksFor(i.size + n) && IsFirstFit(s.bits, BITMAP_SIZE, required, first)
    else first == i.blocks[0] && required == i.blocks[1]
  }

  /** The inode an append makes is that of a file that holds its bytes. */
  lemma GrownFits(i: Inode, n: nat, s: Space, first: int, required: int)
    requires FileOk(i) && BITMAP_SIZE <= |s.bits| && IsPlace(s, i, n, first, required)
    requires HeaderInUse(s.bits)
    ensures HEADER_BLOCKS <= first && first + required <= BITMAP_SIZE && i.blocks[1] <= required
    ensures i.size + n <= required * BLOCK_SIZE <= DISK_SIZE
    ensures Grown(i, i.(blocks := [first, required] + i.blocks[2..], size := i.size + n), n, s)
  {
    assert Moves(i, n) ==> !s.bits[first];
  }

  /** A file that an append moves gets as few blocks as hold its bytes and one more; one that stays has them already. */
  lemma ExtentIsTight(i: Inode, j: Inode, n: nat, s: Space)
    requires FileOk(i) && BITMAP_SIZE <= |s.bits| && Grown(i, j, n, s)
    ensures j.size + 1 <= j.blocks[1] * 512
    ensures j.blocks[1] != i.blocks[1] ==> (j.blocks[1] - 1) * 512 < j.size + 1 && i.blocks[1] < j.blocks[1]
    ensures j.blocks[1] == i.blocks[1] ==> j.blocks[0] == i.blocks[0]
  {
  }

  /**
   The blocks a file ends up in are marked in use after an append exactly when the append moved it: an append in place
   gives back the very blocks the file stays in.
   */
  lemma ExtentInUseIffMoved(i: Inode, j: Inode, n: nat, s: Space)
    requires FileOk(i) && BITMAP_SIZE <= |s.bits| && Grown(i, j, n, s)
    requires i.blocks[1] > 0 && Used(s.bits, i.blocks[0], i.blocks[1])
    ensures Used(SpaceAfter(s, i, j, n).bits, j.blocks[0], j.blocks[1]) <==> Moves(i, n)
  {
    if Moves(i, n) {
      NoOverlap(s.bits, i.blocks[0], i.blocks[1], j.blocks[0], j.blocks[1]);
    } else {
      assert !SpaceAfter(s, i, j, n).bits[j.blocks[0]];
    }
  }

  /** Appending twice is appending both, wherever the file lies in between. */
  lemma AppendsAdd(i: Inode, s: Space, d: seq<Byte>, used: seq<bool>, a: seq<Byte>,
      j: Inode, s': Space, d': seq<Byte>, used': seq<bool>, b: seq<Byte>, k: Inode, s'': Space, d'': seq<Byte>,
      used'': seq<bool>)
    requires FileOk(i) && BITMAP_SIZE <= |s.bits| && |d| == DISK_SIZE && Appended(i, s, d, used, a, j, s', d', used')
    requires BITMAP_SIZE <= |s'.bits| && Appended(j, s', d', used', b, k, s'', d'', used'')
    requires RecordApart(j.number, j) && RecordApart(k.number, k)
    ensures Contents(d'', k) == Contents(d, i) + (a + b)
    ensures LookupInTable(d'', used'', k.number) == Some(k)
  {
  }

  /** An input for the second case: one byte appended to a file just created, which has one block. */
  lemma InPlaceAppendFreesItself(i: Inode, j: Inode, s: Space)
    requires FileOk(i) && i.size == 0 && i.blocks[1] == 1
    requires BITMAP_SIZE <= |s.bits| && Used(s.bits, i.blocks[0], 1) && Grown(i, j, 1, s)
    ensures j.blocks[0] == i.blocks[0] && j.blocks[1] == 1 && j.size == 1
    ensures !SpaceAfter(s, i, j, 1).bits[j.blocks[0]]
  {
    assert !Moves(i, 1);
  }
}
