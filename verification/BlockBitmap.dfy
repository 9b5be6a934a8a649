/**
 Chinux's first-fit block allocator: a bitmap packed in 32-bit words, a search for the lowest run of free blocks, and
 its release.
 */
module BlockBitmap {
  import opened Base

  const WORD_SIZE: nat := 32
  /** Blocks on the disk, and bits the search looks at. */
  const BITMAP_SIZE: nat := 40960
  /** Words the bitmap is stored in: BITMAP_SIZE bytes. */
  const STORED_WORDS: nat := 10240
  /** Blocks of the superblock, the bitmaps and the inode table. */
  const HEADER_BLOCKS: nat := 183
  const NO_SPACE: int := -1

  // ----- bits in words -----

  /** A word with bit `k` set. */
  function Mask(k: nat): bv32
  {
    if k == 0 then 1 else Mask(k - 1) << 1
  }

  lemma {:induction false} MasksDiffer(j: nat, k: nat)
    requires j < k < WORD_SIZE
    ensures Mask(j) & Mask(k) == 0
  {
    if j == 0 {
      ShiftedIsEven(Mask(k - 1));
    } else {
      MasksDiffer(j - 1, k - 1);
      ShiftsMeet(Mask(j - 1), Mask(k - 1));
    }
  }

  lemma ShiftedIsEven(m: bv32)
    ensures 1 & (m << 1) == 0
  {
  }

  lemma ShiftsMeet(m: bv32, n: bv32)
    requires m & n == 0
    ensures (m << 1) & (n << 1) == 0
  {
    assert (m << 1) & (n << 1) == (m & n) << 1;
  }

  lemma MaskIsNotZero(k: nat)
    requires k < WORD_SIZE
    ensures Mask(k) != 0
  {
    assert Mask(0) == 1 && Mask(1) == 2 && Mask(2) == 4 && Mask(3) == 8;
    assert Mask(4) == 0x10 && Mask(5) == 0x20 && Mask(6) == 0x40 && Mask(7) == 0x80;
    assert Mask(8) == 0x100 && Mask(9) == 0x200 && Mask(10) == 0x400 && Mask(11) == 0x800;
    assert Mask(12) == 0x1000 && Mask(13) == 0x2000 && Mask(14) == 0x4000 && Mask(15) == 0x8000;
    assert Mask(16) == 0x1_0000 && Mask(17) == 0x2_0000 && Mask(18) == 0x4_0000 && Mask(19) == 0x8_0000;
    assert Mask(20) == 0x10_0000 && Mask(21) == 0x20_0000 && Mask(22) == 0x40_0000 && Mask(23) == 0x80_0000;
    assert Mask(24) == 0x100_0000 && Mask(25) == 0x200_0000 && Mask(26) == 0x400_0000 && Mask(27) == 0x800_0000;
    assert Mask(28) == 0x1000_0000 && Mask(29) == 0x2000_0000 && Mask(30) == 0x4000_0000 && Mask(31) == 0x8000_0000;
  }

  lemma MasksApart(j: nat, k: nat)
    requires j < WORD_SIZE && k < WORD_SIZE && j != k
    ensures Mask(k) & Mask(j) == 0
  {
    if j < k {
      MasksDiffer(j, k);
      MeetsCommute(Mask(j), Mask(k));
    } else {
      MasksDiffer(k, j);
    }
  }

  lemma MeetsCommute(m: bv32, n: bv32)
    ensures m & n == n & m
  {
  }

  predicate Test(w: bv32, m: bv32) {
    w & m != 0
  }

  lemma SameMask(w: bv32, m: bv32)
    requires m != 0
    ensures Test(w | m, m) && !Test(w & !m, m)
  {
    assert (w | m) & m == m;
  }

  lemma OtherMaskSet(w: bv32, m: bv32, n: bv32)
    requires m & n == 0
    ensures Test(w | m, n) == Test(w, n)
  {
    SetMisses(w, m, n);
  }

  lemma OtherMaskCleared(w: bv32, m: bv32, n: bv32)
    requires m & n == 0
    ensures Test(w & !m, n) == Test(w, n)
  {
    ClearMisses(w, m, n);
  }

  lemma SetMisses(w: bv32, m: bv32, n: bv32)
    requires m & n == 0
    ensures (w | m) & n == w & n
  {
    OrMeets(w, m, n);
    OrNothing(w & n);
  }

  lemma ClearMisses(w: bv32, m: bv32, n: bv32)
    requires m & n == 0
    ensures (w & !m) & n == w & n
  {
    MaskSplits(m, n);
    OrNothing(!m & n);
    MeetsGroup(w, !m, n);
  }

  lemma OrMeets(w: bv32, m: bv32, n: bv32)
    ensures (w | m) & n == (w & n) | (m & n)
  {
  }

  lemma MaskSplits(m: bv32, n: bv32)
    ensures n == (m & n) | (!m & n)
  {
  }

  lemma MeetsGroup(w: bv32, m: bv32, n: bv32)
    ensures (w & m) & n == w & (m & n)
  {
  }

  lemma OrNothing(a: bv32)
    ensures a | 0 == a && 0 | a == a
  {
  }

  /** Setting or clearing one bit of a word changes that bit and no other. */
  lemma SameBit(w: bv32, k: nat, m: bv32)
    requires k < WORD_SIZE && m == Mask(k)
    ensures Test(w | m, m) && !Test(w & !m, m)
  {
    MaskIsNotZero(k);
    SameMask(w, m);
  }

  lemma OtherBitSet(w: bv32, k: nat, j: nat, m: bv32, n: bv32)
    requires k < WORD_SIZE && j < WORD_SIZE && m == Mask(k) && n == Mask(j) && j != k
    ensures Test(w | m, n) == Test(w, n)
  {
    MasksApart(j, k);
    OtherMaskSet(w, m, n);
  }

  lemma OtherBitCleared(w: bv32, k: nat, j: nat, m: bv32, n: bv32)
    requires k < WORD_SIZE && j < WORD_SIZE && m == Mask(k) && n == Mask(j) && j != k
    ensures Test(w & !m, n) == Test(w, n)
  {
    MasksApart(j, k);
    OtherMaskCleared(w, m, n);
  }

  /** The bits of a series of words, least significant first. */
  ghost function BitsOf(words: seq<bv32>): (bits: seq<bool>)
    ensures |bits| == |words| * WORD_SIZE
    ensures forall i :: 0 <= i < |bits| ==> bits[i] == Test(words[i / WORD_SIZE], Mask(i % WORD_SIZE))
  {
    seq(|words| * WORD_SIZE, i requires 0 <= i < |words| * WORD_SIZE => Test(words[i / WORD_SIZE], Mask(i % WORD_SIZE)))
  }

  /** One word rewritten so that one of its bits is `on` and the others are as before. */
  lemma OneWord(words: seq<bv32>, b: nat, w: bv32, on: bool)
    requires b / WORD_SIZE < |words| && Turned(words[b / WORD_SIZE], w, b % WORD_SIZE, on)
    ensures b < |BitsOf(words)| && BitsOf(words[b / WORD_SIZE := w]) == BitsOf(words)[b := on]
  {
  }

  lemma BitAfterSet(w: bv32, b: nat, m: bv32, k: nat, n: bv32, v: bv32)
    requires b < WORD_SIZE && k < WORD_SIZE && m == Mask(b) && n == Mask(k) && v == w | m
    ensures k == b ==> Test(v, n)
    ensures k != b ==> Test(v, n) == Test(w, n)
  {
    if k == b {
      SameBit(w, b, m);
    } else {
      OtherBitSet(w, b, k, m, n);
    }
  }

  lemma BitAfterClear(w: bv32, b: nat, m: bv32, k: nat, n: bv32, v: bv32)
    requires b < WORD_SIZE && k < WORD_SIZE && m == Mask(b) && n == Mask(k) && v == w & !m
    ensures k == b ==> !Test(v, n)
    ensures k != b ==> Test(v, n) == Test(w, n)
  {
    if k == b {
      SameBit(w, b, m);
    } else {
      OtherBitCleared(w, b, k, m, n);
    }
  }

  /** Word `v` is word `w` with bit `b` turned on or off. */
  ghost predicate Turned(w: bv32, v: bv32, b: nat, on: bool) {
    && Test(v, Mask(b)) == on
    && forall k :: 0 <= k < WORD_SIZE && k != b ==> Test(v, Mask(k)) == Test(w, Mask(k))
  }

  lemma SetWord(w: bv32, b: nat, m: bv32, v: bv32)
    requires b < WORD_SIZE && m == Mask(b) && v == w | m
    ensures Turned(w, v, b, true)
  {
    BitAfterSet(w, b, m, b, m, v);
    forall k | 0 <= k < WORD_SIZE && k != b ensures Test(v, Mask(k)) == Test(w, Mask(k)) {
      BitAfterSet(w, b, m, k, Mask(k), v);
    }
  }

  lemma ClearWord(w: bv32, b: nat, m: bv32, v: bv32)
    requires b < WORD_SIZE && m == Mask(b) && v == w & !m
    ensures Turned(w, v, b, false)
  {
    BitAfterClear(w, b, m, b, m, v);
    forall k | 0 <= k < WORD_SIZE && k != b ensures Test(v, Mask(k)) == Test(w, Mask(k)) {
      BitAfterClear(w, b, m, k, Mask(k), v);
    }
  }

  // ----- runs of free blocks -----

  ghost predicate Free(bits: seq<bool>, s: int, q: int) {
    0 <= s && s + q <= |bits| && forall i :: s <= i < s + q ==> !bits[i]
  }

  ghost predicate Used(bits: seq<bool>, s: int, q: int) {
    0 <= s && s + q <= |bits| && forall i :: s <= i < s + q ==> bits[i]
  }

  ghost function Fill(bits: seq<bool>, s: int, q: int, v: bool): (r: seq<bool>)
    ensures |r| == |bits|
  {
    seq(|bits|, i requires 0 <= i < |bits| => if s <= i < s + q then v else bits[i])
  }

  /** How many blocks are in use. */
  ghost function InUse(bits: seq<bool>): nat {
    if bits == [] then 0 else InUse(bits[..|bits|-1]) + if bits[|bits|-1] then 1 else 0
  }

  /** A run of `q` free blocks exists among the first `limit`. */
  ghost predicate HasRun(bits: seq<bool>, limit: nat, q: int) {
    exists s :: s + q <= limit && Free(bits, s, q)
  }

  /** What the search answers: the lowest start of a long enough run. */
  ghost predicate IsFirstFit(bits: seq<bool>, limit: nat, q: int, r: int) {
    r + q <= limit && Free(bits, r, q) && forall s :: s + q <= limit && Free(bits, s, q) ==> r <= s
  }

  /** When no run is long enough: the start of the short free run at the end of the scan, if there is one. */
  ghost predicate IsShortTail(bits: seq<bool>, limit: nat, q: int, r: int)
    requires limit <= |bits|
  {
    if limit == 0 || bits[limit-1] then r == -1
    else 0 <= r < limit < r + q && Free(bits, r, limit - r) && (r == 0 || bits[r-1])
  }

  lemma {:induction false} FillCounts(bits: seq<bool>, s: nat, q: nat)
    requires Free(bits, s, q)
    ensures InUse(Fill(bits, s, q, true)) == InUse(bits) + q
  {
    if q > 0 {
      FillCounts(bits, s, q - 1);
      FillOne(bits, s, q, true);
      OneCounts(Fill(bits, s, q - 1, true), s + q - 1);
    } else {
      assert Fill(bits, s, 0, true) == bits;
    }
  }

  lemma {:induction false} ClearCounts(bits: seq<bool>, s: nat, q: nat)
    requires Used(bits, s, q)
    ensures InUse(Fill(bits, s, q, false)) == InUse(bits) - q
  {
    if q > 0 {
      ClearCounts(bits, s, q - 1);
      FillOne(bits, s, q, false);
      OneCounts(Fill(bits, s, q - 1, false), s + q - 1);
    } else {
      assert Fill(bits, s, 0, false) == bits;
    }
  }

  lemma FillOne(bits: seq<bool>, s: nat, q: nat, v: bool)
    requires q > 0 && s + q <= |bits|
    ensures Fill(bits, s, q, v) == Fill(bits, s, q - 1, v)[s + q - 1 := v]
  {
  }

  lemma {:induction false} OneCounts(bits: seq<bool>, b: nat)
    requires b < |bits|
    ensures InUse(bits[b := true]) == InUse(bits[b := false]) + 1
    ensures InUse(bits) == if bits[b] then InUse(bits[b := true]) else InUse(bits[b := false])
  {
    var n := |bits| - 1;
    assert bits[b := bits[b]] == bits;
    if b < n {
      OneCounts(bits[..n], b);
      assert bits[b := true][..n] == bits[..n][b := true] && bits[b := false][..n] == bits[..n][b := false];
    } else {
      assert bits[b := true][..n] == bits[..n] == bits[b := false][..n];
    }
  }

  /** Releasing what was allocated, or allocating again what was released, brings the bitmap back. */
  lemma FillBack(bits: seq<bool>, s: nat, q: nat)
    requires s + q <= |bits|
    ensures Free(bits, s, q) ==> Fill(Fill(bits, s, q, true), s, q, false) == bits
    ensures Used(bits, s, q) ==> Fill(Fill(bits, s, q, false), s, q, true) == bits
  {
  }

  // ----- the scan -----

  /** After `i` blocks: the free run that ends there, and no long enough run before it. */
  ghost predicate Scanned(bits: seq<bool>, q: int, i: int, candidate: int, count: int) {
    && 0 <= i <= |bits| && 0 <= count <= q
    && (if candidate == -1 then count == 0 && (i == 0 || bits[i-1])
        else
          0 <= candidate < i && count == i - candidate && Free(bits, candidate, count)
          && (candidate == 0 || bits[candidate-1]))
    && forall s :: s + q <= i && Free(bits, s, q) ==> candidate != -1 && candidate <= s
  }

  lemma ScanStep(bits: seq<bool>, q: int, i: int, candidate: int, count: int)
    requires q > 0 && Scanned(bits, q, i, candidate, count) && count < q && i < |bits|
    ensures bits[i] ==> Scanned(bits, q, i + 1, -1, 0)
    ensures !bits[i] ==> Scanned(bits, q, i + 1, if candidate == -1 then i else candidate, count + 1)
  {
    forall s | s + q <= i + 1 && Free(bits, s, q) ensures !bits[i] && (candidate == -1 ==> i <= s) && candidate <= s {
      RunReaches(bits, q, i, candidate, count, s);
    }
  }

  /** A run of the length asked for that ends with block `i` starts where the candidate does. */
  lemma RunReaches(bits: seq<bool>, q: int, i: int, candidate: int, count: int, s: int)
    requires q > 0 && Scanned(bits, q, i, candidate, count) && count < q && i < |bits|
    requires s + q <= i + 1 && Free(bits, s, q)
    ensures !bits[i] && (candidate == -1 ==> i <= s) && candidate <= s
  {
    assert candidate == -1 && i > 0 ==> bits[i-1];
    assert candidate > 0 ==> bits[candidate-1];
  }

  lemma ScanEnds(bits: seq<bool>, q: int, i: int, candidate: int, count: int)
    requires q > 0 && BITMAP_SIZE <= |bits| && i <= BITMAP_SIZE && Scanned(bits, q, i, candidate, count)
    requires i == BITMAP_SIZE || count == q
    ensures
      if HasRun(bits, BITMAP_SIZE, q) then IsFirstFit(bits, BITMAP_SIZE, q, candidate)
      else IsShortTail(bits, BITMAP_SIZE, q, candidate)
  {
    if count == q {
      assert Free(bits, candidate, q);
      assert candidate > 0 ==> bits[candidate-1];
    }
  }

  // ----- allocation and release on values -----

  /** The bitmap with the two counters of the superblock. */
  datatype Space = Space(bits: seq<bool>, freeBlocks: int, usedBlocks: int)

  /** search_free_blocks: `r` is the answer and `t` the space afterwards. */
  ghost predicate Allocates(s: Space, q: int, r: int, t: Space) {
    && BITMAP_SIZE <= |s.bits|
    && (s.freeBlocks < 100 || q <= 0 ==> r == NO_SPACE)
    && (s.freeBlocks >= 100 && q > 0 ==>
          if HasRun(s.bits, BITMAP_SIZE, q) then IsFirstFit(s.bits, BITMAP_SIZE, q, r)
          else IsShortTail(s.bits, BITMAP_SIZE, q, r))
    && t == if r == NO_SPACE then s else Space(Fill(s.bits, r, q, true), s.freeBlocks - q, s.usedBlocks + q)
  }

  /** free_used_blocks */
  ghost function Release(s: Space, first: nat, q: nat): Space {
    Space(Fill(s.bits, first, q, false), s.freeBlocks + q, s.usedBlocks - q)
  }

  /** The blocks handed out lie on the disk exactly when a run of that length was free; otherwise they leave it. */
  lemma OnDiskIffRun(s: Space, q: int, r: int, t: Space)
    requires Allocates(s, q, r, t) && r != NO_SPACE
    ensures 0 <= r < BITMAP_SIZE && Free(s.bits, r, Min(q, BITMAP_SIZE - r))
    ensures r + q <= BITMAP_SIZE <==> HasRun(s.bits, BITMAP_SIZE, q)
    ensures r + q > BITMAP_SIZE <==> !HasRun(s.bits, BITMAP_SIZE, q) && !s.bits[BITMAP_SIZE-1]
  {
  }

  /** A short tail so long a request makes of it that it runs past the words stored. */
  ghost predicate Overruns(s: Space, q: int)
    requires BITMAP_SIZE <= |s.bits|
  {
    && s.freeBlocks >= 100 && q > 0 && !HasRun(s.bits, BITMAP_SIZE, q)
    && exists r :: IsShortTail(s.bits, BITMAP_SIZE, q, r) && r != NO_SPACE && r + q > |s.bits|
  }

  /** Over blocks that were all free the counters follow the bits, and release is the inverse. */
  lemma AllocationCounts(s: Space, q: int, r: int, t: Space)
    requires Allocates(s, q, r, t) && r != NO_SPACE && Free(s.bits, r, q)
    ensures InUse(t.bits) - t.usedBlocks == InUse(s.bits) - s.usedBlocks
    ensures t.freeBlocks + t.usedBlocks == s.freeBlocks + s.usedBlocks
    ensures Used(t.bits, r, q) && Release(t, r, q) == s
  {
    FillCounts(s.bits, r, q);
    FillBack(s.bits, r, q);
  }

  // ----- every run -----

  /** The space with the extents handed out and not yet given back. */
  datatype Ledger = Ledger(space: Space, live: seq<(nat, nat)>)

  ghost predicate Apart(a: (nat, nat), b: (nat, nat)) {
    a.0 + a.1 <= b.0 || b.0 + b.1 <= a.0
  }

  ghost predicate Covers(a: (nat, nat), b: nat) {
    a.0 <= b < a.0 + a.1
  }

  /** An extent held that covers block `b`, past the end of the disk, and with it the last block of the disk. */
  ghost predicate HeldPastEnd(l: Ledger, b: nat) {
    exists k :: 0 <= k < |l.live| && Covers(l.live[k], b) && Covers(l.live[k], BITMAP_SIZE - 1)
  }

  /** `header` is the number of blocks in use from the start. */
  ghost predicate Sound(l: Ledger, header: int) {
    && BITMAP_SIZE <= |l.space.bits|
    && InUse(l.space.bits) == l.space.usedBlocks + header
    && l.space.freeBlocks + l.space.usedBlocks == BITMAP_SIZE
    && (forall i :: 0 <= i < |l.live| ==>
          l.live[i].1 > 0 && l.live[i].0 < BITMAP_SIZE && Used(l.space.bits, l.live[i].0, l.live[i].1))
    && (forall i, j :: 0 <= i < j < |l.live| ==> Apart(l.live[i], l.live[j]))
    && (forall b :: BITMAP_SIZE <= b < |l.space.bits| && l.space.bits[b] ==> HeldPastEnd(l, b))
  }

  /** A search, whose answer, if any, is kept; none that runs past the words stored. */
  ghost predicate Searched(l: Ledger, m: Ledger, q: int, r: int) {
    && Allocates(l.space, q, r, m.space) && !Overruns(l.space, q)
    && m.live == if r == NO_SPACE then l.live else l.live + [(r as nat, q as nat)]
  }

  /** An extent held is given back. */
  ghost predicate GivenBack(l: Ledger, m: Ledger, k: nat) {
    && k < |l.live| && m.space == Release(l.space, l.live[k].0, l.live[k].1)
    && m.live == l.live[..k] + l.live[k+1..]
  }

  /** One call. */
  ghost predicate Next(l: Ledger, m: Ledger) {
    (exists q: int, r: int :: Searched(l, m, q, r)) || (exists k :: GivenBack(l, m, k))
  }

  /** All blocks answered were free, past the end of the disk too. */
  lemma AnswerIsFree(l: Ledger, m: Ledger, header: int, q: int, r: int)
    requires Sound(l, header) && Searched(l, m, q, r) && r != NO_SPACE
    ensures q > 0 && 0 <= r < BITMAP_SIZE && Free(l.space.bits, r, q)
  {
    var bits := l.space.bits;
    if !HasRun(bits, BITMAP_SIZE, q) {
      assert IsShortTail(bits, BITMAP_SIZE, q, r) && r + q <= |bits|;
      forall b | BITMAP_SIZE <= b < r + q ensures !bits[b] {
        LastIsHeld(l, header, b);
      }
    }
  }

  /** A block in use past the end of the disk is held together with the last block of the disk. */
  lemma LastIsHeld(l: Ledger, header: int, b: nat)
    requires Sound(l, header) && BITMAP_SIZE <= b < |l.space.bits|
    ensures l.space.bits[b] ==> l.space.bits[BITMAP_SIZE-1]
  {
    if l.space.bits[b] {
      assert HeldPastEnd(l, b);
      var k :| 0 <= k < |l.live| && Covers(l.live[k], b) && Covers(l.live[k], BITMAP_SIZE - 1);
      assert Used(l.space.bits, l.live[k].0, l.live[k].1);
    }
  }

  lemma AllocationIsSound(l: Ledger, m: Ledger, header: int, q: int, r: int)
    requires Sound(l, header) && Searched(l, m, q, r) && r != NO_SPACE
    ensures Sound(m, header)
  {
    AnswerIsFree(l, m, header, q, r);
    AllocationCounts(l.space, q, r, m.space);
    forall i | 0 <= i < |l.live|
      ensures Apart(l.live[i], (r as nat, q as nat)) && Used(m.space.bits, l.live[i].0, l.live[i].1)
    {
      NoOverlap(l.space.bits, l.live[i].0, l.live[i].1, r, q);
    }
    forall b | BITMAP_SIZE <= b < |m.space.bits| && m.space.bits[b] ensures HeldPastEnd(m, b) {
      NewPastEnd(l, m, header, q, r, b);
    }
  }

  lemma NewPastEnd(l: Ledger, m: Ledger, header: int, q: int, r: int, b: nat)
    requires Sound(l, header) && 0 <= r < BITMAP_SIZE && q > 0
    requires m.space.bits == Fill(l.space.bits, r, q, true) && m.live == l.live + [(r as nat, q as nat)]
    requires BITMAP_SIZE <= b < |l.space.bits| && m.space.bits[b]
    ensures HeldPastEnd(m, b)
  {
    if l.space.bits[b] {
      assert HeldPastEnd(l, b);
      var k :| 0 <= k < |l.live| && Covers(l.live[k], b) && Covers(l.live[k], BITMAP_SIZE - 1);
      assert m.live[k] == l.live[k];
    } else {
      assert m.live[|l.live|] == (r as nat, q as nat);
    }
  }

  /** A run in use and a free one have no block in common. */
  lemma NoOverlap(bits: seq<bool>, a: nat, n: nat, b: nat, q: nat)
    requires Used(bits, a, n) && Free(bits, b, q) && q > 0
    requires n > 0
    ensures Apart((a, n), (b, q))
  {
    assert bits[a] && !bits[b];
  }

  lemma ReleaseIsSound(l: Ledger, m: Ledger, header: int, k: nat)
    requires Sound(l, header) && GivenBack(l, m, k)
    ensures Sound(m, header)
  {
    ClearCounts(l.space.bits, l.live[k].0, l.live[k].1);
    forall i | 0 <= i < |m.live| ensures Used(m.space.bits, m.live[i].0, m.live[i].1) {
      assert m.live[i] == l.live[if i < k then i else i + 1];
      assert Apart(l.live[k], m.live[i]) || Apart(m.live[i], l.live[k]);
    }
    forall b | BITMAP_SIZE <= b < |m.space.bits| && m.space.bits[b] ensures HeldPastEnd(m, b) {
      LeftPastEnd(l, m, header, k, b);
    }
  }

  lemma LeftPastEnd(l: Ledger, m: Ledger, header: int, k: nat, b: nat)
    requires Sound(l, header) && GivenBack(l, m, k)
    requires BITMAP_SIZE <= b < |m.space.bits| && m.space.bits[b]
    ensures HeldPastEnd(m, b)
  {
    assert HeldPastEnd(l, b);
    var j :| 0 <= j < |l.live| && Covers(l.live[j], b) && Covers(l.live[j], BITMAP_SIZE - 1);
    assert m.live[if j < k then j else j - 1] == l.live[j];
  }

  lemma NextIsSound(l: Ledger, m: Ledger, header: int)
    requires Sound(l, header) && Next(l, m)
    ensures Sound(m, header)
  {
    if k :| GivenBack(l, m, k) {
      ReleaseIsSound(l, m, header, k);
    } else {
      var q: int, r: int :| Searched(l, m, q, r);
      if r != NO_SPACE {
        AllocationIsSound(l, m, header, q, r);
      }
    }
  }

  /**
   Over every run of allocations and releases, short tails included, extents held at the same time have no block in
   common, all their blocks are in use, and the blocks in use are those counted plus the ones used from the start; the
   blocks counted as free and as used make up the disk.  The bitmap may be as long as one likes: the memory behind the
   words stored counts too, if nobody else uses it.
   */
  lemma {:induction false} HeldExtentsNeverOverlap(run: seq<Ledger>, header: int, k: nat)
    requires k < |run| && Sound(run[0], header)
    requires forall i :: 0 <= i < |run| - 1 ==> Next(run[i], run[i+1])
    ensures Sound(run[k], header)
  {
    if k > 0 {
      HeldExtentsNeverOverlap(run, header, k - 1);
      NextIsSound(run[k-1], run[k], header);
    }
  }

  /**
   A search is answered exactly when 100 blocks are counted free, something is asked for, and a run of that length or
   the last block of the disk is free; a refusal changes nothing.
   */
  lemma AnsweredExactlyWhen(s: Space, q: int, r: int, t: Space)
    requires Allocates(s, q, r, t)
    ensures r != -1 <==> s.freeBlocks >= 100 && q > 0 && (HasRun(s.bits, BITMAP_SIZE, q) || !s.bits[40959])
    ensures r == -1 ==> t == s
    ensures r != -1 ==> t.freeBlocks == s.freeBlocks - q && t.usedBlocks == s.usedBlocks + q
    ensures r != -1 ==> forall b :: 0 <= b < |s.bits| ==> t.bits[b] == (r <= b < r + q || s.bits[b])
  {
  }

  /** A disk just formatted: the header blocks and one for the root are in use, and counted nowhere. */
  ghost predicate Formatted(l: Ledger) {
    && |l.space.bits| == STORED_WORDS * WORD_SIZE && l.live == []
    && (forall i :: 0 <= i < |l.space.bits| ==> l.space.bits[i] == (i < HEADER_BLOCKS + 1))
    && l.space.freeBlocks == BITMAP_SIZE && l.space.usedBlocks == 0
  }

  lemma FormattedIsSound(l: Ledger)
    requires Formatted(l)
    ensures Sound(l, HEADER_BLOCKS + 1)
  {
    var bits := l.space.bits;
    var clear := Fill(bits, 0, HEADER_BLOCKS + 1, false);
    AllClear(clear);
    FillCounts(clear, 0, HEADER_BLOCKS + 1);
    assert Fill(clear, 0, HEADER_BLOCKS + 1, true) == bits;
  }

  /** A search of a disk in use up to block `n` and free behind it. */
  lemma TakesTheNext(l: Ledger, m: Ledger, n: int, q: int, r: int)
    requires BITMAP_SIZE < |l.space.bits| && 0 < n && 0 < q && n + q <= BITMAP_SIZE
    requires forall i :: 0 <= i < |l.space.bits| ==> l.space.bits[i] == (i < n)
    requires Searched(l, m, q, r) && l.space.freeBlocks >= 100
    ensures r == n && m.space.freeBlocks == l.space.freeBlocks - q
    ensures forall i :: 0 <= i < |m.space.bits| ==> m.space.bits[i] == (i < n + q)
  {
    assert Free(l.space.bits, n, q);
    assert HasRun(l.space.bits, BITMAP_SIZE, q);
    assert Free(l.space.bits, r, q) && !l.space.bits[r];
  }

  /**
   A run that hands out blocks past the end of the disk: the twelve blocks of the root directory of a disk just
   formatted, a file of 40763 blocks, and one of two.
   */
  lemma ShortTailIsHandedOut(l: Ledger, m: Ledger, n: Ledger, o: Ledger, root: int, first: int, second: int)
    requires Formatted(l) && Searched(l, m, 12, root) && Searched(m, n, 40763, first) && Searched(n, o, 2, second)
    ensures root == HEADER_BLOCKS + 1 && first == HEADER_BLOCKS + 13 && n.space.freeBlocks == 185
    ensures second == BITMAP_SIZE - 1 && second + 2 > BITMAP_SIZE
  {
    TakesTheNext(l, m, HEADER_BLOCKS + 1, 12, root);
    TakesTheNext(m, n, HEADER_BLOCKS + 13, 40763, first);
    assert forall x :: Free(n.space.bits, x, 2) ==> !n.space.bits[x];
    assert !HasRun(n.space.bits, BITMAP_SIZE, 2);
    assert n.space.bits[BITMAP_SIZE-2];
  }

  /** At most one extent held runs past the end of the disk. */
  lemma OnePastEnd(l: Ledger, header: int, i: nat, j: nat)
    requires Sound(l, header) && i < j < |l.live|
    ensures l.live[i].0 + l.live[i].1 <= BITMAP_SIZE || l.live[j].0 + l.live[j].1 <= BITMAP_SIZE
  {
    assert Apart(l.live[i], l.live[j]);
  }

  // ----- the allocator -----

  /** A packed bitmap. */
  class Bitmap {
    const words: array<bv32>

    ghost function Bits(): (bits: seq<bool>)
      reads words
      ensures |bits| == words.Length * WORD_SIZE
    {
      BitsOf(words[..])
    }

    constructor (length: nat)
      ensures fresh(words) && words.Length == length
      ensures InUse(Bits()) == 0
    {
      words := new bv32[length](_ => 0);
      new;
      AllClear(Bits());
    }

    /** set_bit */
    method SetBit(b: nat)
      requires b < words.Length * WORD_SIZE
      modifies words
      ensures Bits() == old(Bits())[b := true]
    {
      var m := Mask(b % WORD_SIZE);
      var w := words[b / WORD_SIZE];
      var v := w | m;
      SetWord(w, b % WORD_SIZE, m, v);
      OneWord(words[..], b, v, true);
      words[b / WORD_SIZE] := v;
    }

    /** clear_bit */
    method ClearBit(b: nat)
      requires b < words.Length * WORD_SIZE
      modifies words
      ensures Bits() == old(Bits())[b := false]
    {
      var m := Mask(b % WORD_SIZE);
      var w := words[b / WORD_SIZE];
      var v := w & !m;
      ClearWord(w, b % WORD_SIZE, m, v);
      OneWord(words[..], b, v, false);
      words[b / WORD_SIZE] := v;
    }

    /** get_bit, compared with FREE */
    method IsFree(b: nat) returns (free: bool)
      requires b < words.Length * WORD_SIZE
      ensures free == !Bits()[b]
    {
      free := words[b / WORD_SIZE] & Mask(b % WORD_SIZE) == 0;
    }

    /** The loops that set or clear a run of bits. */
    method FillRun(first: nat, quantity: nat, on: bool)
      requires first + quantity <= words.Length * WORD_SIZE
      modifies words
      ensures Bits() == Fill(old(Bits()), first, quantity, on)
    {
      ghost var was := Bits();
      assert was == Fill(was, first, 0, on);
      for i := first to first + quantity
        invariant Bits() == Fill(was, first, i - first, on)
      {
        FillOne(was, first, i - first + 1, on);
        if on { SetBit(i); } else { ClearBit(i); }
      }
    }
  }

  class BlockMap {
    const bitmap: Bitmap
    var freeBlocks: int
    var usedBlocks: int

    ghost predicate Valid() {
      bitmap.words.Length == STORED_WORDS
    }

    ghost function Bits(): (bits: seq<bool>)
      requires Valid()
      reads bitmap.words
      ensures |bits| == STORED_WORDS * WORD_SIZE
    {
      bitmap.Bits()
    }

    constructor ()
      ensures Valid() && fresh(bitmap) && fresh(bitmap.words) && freeBlocks == BITMAP_SIZE && usedBlocks == 0
      ensures InUse(Bits()) == 0
    {
      bitmap := new Bitmap(STORED_WORDS);
      freeBlocks, usedBlocks := BITMAP_SIZE, 0;
    }

    /** The scan of search_free_blocks. */
    method Scan(quantity: int) returns (candidate: int)
      requires Valid()
      ensures quantity <= 0 ==> candidate == -1
      ensures quantity > 0 ==>
        if HasRun(Bits(), BITMAP_SIZE, quantity) then IsFirstFit(Bits(), BITMAP_SIZE, quantity, candidate)
        else IsShortTail(Bits(), BITMAP_SIZE, quantity, candidate)
    {
      var i, count := 0, 0;
      candidate := -1;
      ghost var bits := Bits();
      while i < BITMAP_SIZE && count < quantity
        invariant 0 <= i <= BITMAP_SIZE && (quantity <= 0 ==> i == 0)
        invariant quantity > 0 ==> Scanned(bits, quantity, i, candidate, count)
        invariant i == 0 ==> candidate == -1 && count == 0
      {
        var free := bitmap.IsFree(i);
        ghost var before := candidate;
        if candidate == -1 && free {
          candidate := i;
        }
        free := bitmap.IsFree(i);
        ScanStep(bits, quantity, i, before, count);
        if free {
          count := count + 1;
        } else {
          count, candidate := 0, -1;
        }
        i := i + 1;
      }
      if quantity > 0 {
        ScanEnds(bits, quantity, i, candidate, count);
      }
    }

    ghost function View(): Space
      requires Valid()
      reads this, bitmap.words
    {
      Space(Bits(), freeBlocks, usedBlocks)
    }

    /** search_free_blocks; `ok` is false when it would set bits past the words stored. */
    method SearchFreeBlocks(quantityBlocks: int) returns (candidate: int, ok: bool)
      requires Valid()
      modifies this`freeBlocks, this`usedBlocks, bitmap.words
      ensures ok <==> !Overruns(old(View()), quantityBlocks)
      ensures ok ==> Allocates(old(View()), quantityBlocks, candidate, View())
      ensures !ok ==> View() == old(View())
    {
      ok := true;
      if freeBlocks < 100 {
        return NO_SPACE, ok;
      }
      candidate := Scan(quantityBlocks);
      if candidate == -1 {
        return;
      }
      if candidate + quantityBlocks > STORED_WORDS * WORD_SIZE {
        ok := false;
        return;
      }
      bitmap.FillRun(candidate, quantityBlocks, true);
      freeBlocks := freeBlocks - quantityBlocks;
      usedBlocks := usedBlocks + quantityBlocks;
    }

    /** free_used_blocks, on the block map. */
    method FreeUsedBlocks(first: nat, quantity: nat)
      requires Valid() && first + quantity <= STORED_WORDS * WORD_SIZE
      modifies this`freeBlocks, this`usedBlocks, bitmap.words
      ensures View() == Release(old(View()), first, quantity)
    {
      bitmap.FillRun(first, quantity, false);
      freeBlocks := freeBlocks + quantity;
      usedBlocks := usedBlocks - quantity;
    }
  }

  lemma {:induction false} AllClear(bits: seq<bool>)
    requires forall i :: 0 <= i < |bits| ==> !bits[i]
    ensures InUse(bits) == 0
  {
    if bits != [] {
      AllClear(bits[..|bits|-1]);
    }
  }
}
