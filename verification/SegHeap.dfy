/** The allocator of `mm copy.c`: segregated, size-ordered free lists and no footers on allocated
    blocks.  Methods carry the names of the C functions and perform the same writes in the same
    order; the ghost fields `B` and `L` are the blocks and lists that the words stand for.
 */
module SegHeap {
  import opened SegWords
  import opened SegLayout
  import opened SegLists
  import opened SegSteps
  import opened SegMoves
  import opened SegPlans
  import opened SegSpace

  const WSIZE := 4
  const DSIZE := 8
  const CHUNKSIZE := 128
  const SPLIT_THRESHOLD := 96
  const GLOBAL_BEST_LIMIT := 160

  /** `ALIGN`: up to the next multiple of 8. */
  function Align(size: int): (r: int)
    ensures r % 8 == 0 && size <= r < size + 8
  {
    (size + 7) / 8 * 8
  }

  /** The conversion of a 32-bit pattern to a signed `int`, as in `mem_sbrk((int)size)`. */
  function ToInt(x: int): (r: int)
    requires 0 <= x < 0x1_0000_0000
    ensures r == if x < 0x8000_0000 then x else x - 0x1_0000_0000
  {
    if x < 0x8000_0000 then x else x - 0x1_0000_0000
  }

  function Max(x: int, y: int): int {
    if x > y then x else y
  }

  ghost predicate AllWords(m: Memory) {
    forall i :: 0 <= i < |m| ==> IsWord(m[i])
  }

  lemma PutWords(m: Memory, p: int, v: int)
    requires AllWords(m) && IsWord(v)
    ensures AllWords(Put(m, p, v))
  {
  }

  lemma GetWords(m: Memory, p: int)
    requires AllWords(m)
    ensures IsWord(Get(m, p))
  {
  }

  /** The four or three link writes of `insert_block`, in program order. */
  function WriteInsert(m: Memory, bp: int, insert: int, search: int): (r: Memory)
    ensures |r| == |m|
  {
    var m1 := if insert == 0 then Put(m, bp, 0) else Put(Put(m, insert + 4, bp), bp, insert);
    var m2 := Put(m1, bp + 4, search);
    if search != 0 then Put(m2, search, bp) else m2
  }

  lemma InsertWritten(m: Memory, B: Blocks, brk: int, s: seq<int>, i: int, j: int, bp: int)
    requires Tiled(B, brk) && brk <= 4 * |m| && ListShape(B, s, i) && IsMember(B, bp, i) && bp !in s && 0 <= j <= |s|
    ensures Inserted(m, WriteInsert(m, bp, At(s, j - 1), At(s, j)), s, j, bp)
  {
    FreeCells(m, B, brk, bp);
    if j > 0 {
      assert IsMember(B, s[j - 1], i);
      FreeCells(m, B, brk, s[j - 1]);
    }
    if j < |s| {
      assert IsMember(B, s[j], i);
      FreeCells(m, B, brk, s[j]);
    }
    hide Get, Put, ListShape, Tiled, IsMember, IsCell;
    CellsKept(m, Put(m, bp, 0));
  }

  lemma FreeBounds(B: Blocks, brk: int, a: int)
    requires Tiled(B, brk) && IsFree(B, a)
    ensures a > 8 && a % 8 == 0 && a + B[a].size <= brk && 16 <= B[a].size
  {
    TileFacts(B, brk, a);
    if a < brk {
      Apart(B, brk, a, brk);
    }
  }

  lemma FreeCells(m: Memory, B: Blocks, brk: int, a: int)
    requires Tiled(B, brk) && brk <= 4 * |m| && IsFree(B, a)
    ensures a > 8 && a % 8 == 0 && forall m' :: |m'| == |m| ==> IsCell(m', a - 4) && IsCell(m', a) && IsCell(m', a + 4)
    ensures a + B[a].size <= brk && 16 <= B[a].size
  {
    hide IsCell;
    FreeBounds(B, brk, a);
    var q := a / 8;
    forall m': Memory | |m'| == |m| ensures IsCell(m', a - 4) && IsCell(m', a) && IsCell(m', a + 4) {
      CellAt(m', a - 4, 2 * q - 1);
      CellAt(m', a, 2 * q);
      CellAt(m', a + 4, 2 * q + 1);
    }
  }

  /** The writes of `remove_block`. */
  function WriteRemove(m: Memory, pred: int, succ: int): (r: Memory)
    ensures |r| == |m|
  {
    var m1 := if pred != 0 then Put(m, pred + 4, succ) else m;
    if succ != 0 then Put(m1, succ, pred) else m1
  }

  lemma RemoveWritten(m: Memory, B: Blocks, brk: int, s: seq<int>, i: int, j: int)
    requires Tiled(B, brk) && brk <= 4 * |m| && ListShape(B, s, i) && 0 <= j < |s|
    ensures Removed(m, WriteRemove(m, At(s, j - 1), At(s, j + 1)), s, j)
  {
    if j > 0 {
      assert IsMember(B, s[j - 1], i);
      FreeCells(m, B, brk, s[j - 1]);
    }
    if j + 1 < |s| {
      assert IsMember(B, s[j + 1], i);
      FreeCells(m, B, brk, s[j + 1]);
    }
    hide Get, Put, ListShape, Tiled, IsMember, IsCell;
  }

  /** What a caller asked for rounds up to a block size. */
  function AdjustBlockSize(size: int): (asize: int)
    requires 0 <= size
    ensures size > 0 ==> asize % 8 == 0 && 8 <= asize && size + WSIZE <= asize < size + WSIZE + 8
    ensures size >= 5 ==> asize >= 16
  {
    if size == 0 then 0
    else if Align(size + WSIZE) < DSIZE then DSIZE
    else Align(size + WSIZE)
  }

  // ----- lemmas the methods lean on

  lemma BytesAfter(h: Heap, h1: Heap, gone: int, came: int)
    requires Ready(h) && Ready(h1) && LiveChange(h, h1, gone, came) && h.brk <= h1.brk
    requires (gone == 0 || IsLive(h, gone)) && (came == 0 || (IsLive(h1, came) && (came == gone || !IsLive(h, came))))
    ensures Accounted(h, h1, gone, came)
  {
    hide Ready, LiveChange, Merged, Accounted;
    ReadyIsMerged(h);
    ReadyIsMerged(h1);
    FreeBytesAfter(h, h1, gone, came);
  }

  lemma RoomSize(m: Memory, bp: int, size: int)
    requires HasRoom(m, bp, size) && 4 * |m| <= 0x7FFF_FFFF
    ensures size <= MAX_SIZE && size % 8 == 0
  {
  }

  lemma MembersNotNull(B: Blocks, brk: int, s: seq<int>, i: int)
    requires Tiled(B, brk) && ListShape(B, s, i)
    ensures forall k :: 0 <= k < |s| ==> s[k] != 0
  {
    forall k | 0 <= k < |s| ensures s[k] != 0 {
      assert IsMember(B, s[k], i);
      TileFacts(B, brk, s[k]);
    }
  }

  lemma RestIsLarger(B: Blocks, s: seq<int>, i: int, j: nat, bp: int)
    requires ListShape(B, s, i) && j <= |s| && bp in B && (j < |s| ==> SizeOrdered(B, bp, s[j]))
    ensures forall k :: j <= k < |s| ==> SizeOrdered(B, bp, s[k])
  {
    forall k | j <= k < |s| ensures SizeOrdered(B, bp, s[k]) {
      if j < k {
        assert SizeOrdered(B, s[j], s[k]);
      }
    }
  }

  lemma InsertCells(h: Heap, i: nat, j: nat, bp: int)
    requires Tiled(h.B, h.brk) && 0 <= h.brk <= 4 * |h.m| <= 0x7FFF_FFFF && Listed(h.m, h.seg, h.B, h.L)
    requires IsFree(h.B, bp) && i == ListIndex(h.B[bp].size) && j <= |h.L[i]|
    ensures IsCell(h.m, bp) && IsCell(h.m, bp + 4) && IsWord(bp)
    ensures var p, q := At(h.L[i], j - 1), At(h.L[i], j);
      && (p != 0 ==> IsCell(h.m, p + 4) && IsWord(p)) && IsWord(q) && (q != 0 ==> IsCell(h.m, q))
      && (p == 0 <==> j == 0)
  {
    ListFacts(h.m, h.seg, h.B, h.L, i);
    FreeCells(h.m, h.B, h.brk, bp);
    if j > 0 {
      assert IsMember(h.B, h.L[i][j - 1], i);
      FreeCells(h.m, h.B, h.brk, h.L[i][j - 1]);
    }
    if j < |h.L[i]| {
      assert IsMember(h.B, h.L[i][j], i);
      FreeCells(h.m, h.B, h.brk, h.L[i][j]);
    }
  }

  lemma InsertDone(h: Heap, h': Heap, lo: int, hi: int, j: nat, bp: int)
    requires SoundBut(h, lo, hi) && h.brk <= 4 * |h.m| && NoneListedIn(h.L, lo, hi + 1) && (bp < lo || hi < bp)
    requires IsFree(h.B, bp) && NotListed(h.L, bp) && h'.B == h.B && h'.brk == h.brk
    requires var s := h.L[ListIndex(h.B[bp].size)];
      && j <= |s| && Fits(h.B, s, j, bp)
      && h'.m == WriteInsert(h.m, bp, At(s, j - 1), At(s, j))
      && h'.L == h.L[ListIndex(h.B[bp].size) := InsertAt(s, j, bp)]
      && h'.seg == if j == 0 then h.seg[ListIndex(h.B[bp].size) := bp] else h.seg
    ensures Listing(h, h', bp, lo, hi)
  {
    var i := ListIndex(h.B[bp].size);
    var s := h.L[i];
    ListFacts(h.m, h.seg, h.B, h.L, i);
    InsertWritten(h.m, h.B, h.brk, s, i, j, bp);
    InsertListed(h.m, h'.m, h.seg, h.B, h.brk, h.L, j, bp);
    EncodedUnderLinks(h.m, h'.m, h.B, h.brk, lo, hi);
    LinksQuiet(h, h');
    InsertMembers(h.L, i, j, bp);
    hide Tiled, Encoded, Listed, Inserted, OnlyLinksDiffer, LiveChange, Fits, IsFree, WriteInsert, InsertAt;
  }

  lemma InsertMembers(L: Lists, i: nat, j: nat, bp: int)
    requires |L| == LISTLIMIT && i < LISTLIMIT && j <= |L[i]|
    ensures SameListedBut(L, L[i := InsertAt(L[i], j, bp)], bp) && bp in InsertAt(L[i], j, bp)
  {
    assert InsertAt(L[i], j, bp)[j] == bp;
    assert L[i] == L[i][..j] + L[i][j..];
  }

  lemma RemoveCells(h: Heap, i: nat, j: nat)
    requires Tiled(h.B, h.brk) && 0 <= h.brk <= 4 * |h.m| <= 0x7FFF_FFFF && Listed(h.m, h.seg, h.B, h.L)
    requires i < LISTLIMIT && j < |h.L[i]|
    ensures var bp := h.L[i][j];
      Get(h.m, bp) == At(h.L[i], j - 1) && Get(h.m, bp + 4) == At(h.L[i], j + 1)
    ensures var p, q := At(h.L[i], j - 1), At(h.L[i], j + 1);
      && (p != 0 ==> IsCell(h.m, p + 4)) && IsWord(p) && IsWord(q) && (q != 0 ==> IsCell(h.m, q))
      && (p == 0 <==> j == 0)
  {
    var s := h.L[i];
    ListFacts(h.m, h.seg, h.B, h.L, i);
    assert LinkOk(h.m, s, j);
    if j > 0 {
      assert IsMember(h.B, s[j - 1], i);
      FreeCells(h.m, h.B, h.brk, s[j - 1]);
    }
    if j + 1 < |s| {
      assert IsMember(h.B, s[j + 1], i);
      FreeCells(h.m, h.B, h.brk, s[j + 1]);
    }
  }

  lemma RemoveDone(h: Heap, h': Heap, j: nat, bp: int)
    requires Sound(h) && h.brk <= 4 * |h.m| && IsFree(h.B, bp) && h'.B == h.B && h'.brk == h.brk
    requires var i := ListIndex(h.B[bp].size); var s := h.L[i];
      && j < |s| && s[j] == bp
      && h'.m == WriteRemove(h.m, At(s, j - 1), At(s, j + 1))
      && h'.L == h.L[i := RemoveAt(s, j)]
      && h'.seg == if j == 0 then h.seg[i := At(s, 1)] else h.seg
    ensures Removal(h, h', bp)
  {
    var i := ListIndex(h.B[bp].size);
    var s := h.L[i];
    ListFacts(h.m, h.seg, h.B, h.L, i);
    RemoveWritten(h.m, h.B, h.brk, s, i, j);
    RemoveListed(h.m, h'.m, h.seg, h.B, h.brk, h.L, j, bp);
    EncodedUnderLinks(h.m, h'.m, h.B, h.brk, 1, 0);
    LinksQuiet(h, h');
    RemoveMembers(h.L, i, j);
    hide Tiled, Encoded, Listed, Removed, OnlyLinksDiffer, LiveChange, IsFree, WriteRemove, RemoveAt;
  }

  lemma RemoveMembers(L: Lists, i: nat, j: nat)
    requires |L| == LISTLIMIT && i < LISTLIMIT && j < |L[i]|
    ensures SameListedBut(L, L[i := RemoveAt(L[i], j)], L[i][j])
  {
    assert L[i] == L[i][..j] + [L[i][j]] + L[i][j + 1..];
  }

  /** `bp` is a free block of least size among those of at least `asize` bytes; NULL when there is none. */
  ghost predicate BestFit(B: Blocks, asize: int, bp: int) {
    if bp == 0 then forall a :: IsFree(B, a) ==> B[a].size < asize
    else && IsFree(B, bp) && asize <= B[bp].size
         && forall a :: IsFree(B, a) && asize <= B[a].size ==> B[bp].size <= B[a].size
  }

  const NO_SIZE := 0xFFFF_FFFF_FFFF_FFFF

  /** Among the first `k` blocks of the list, `best` is the smallest that fits, or NULL when none does. */
  ghost predicate BestSoFar(B: Blocks, s: seq<int>, k: int, asize: int, best: int, best_size: int) {
    && 0 <= k <= |s|
    && (forall q :: 0 <= q < k ==> s[q] in B && (asize <= B[s[q]].size ==> best != 0 && best_size <= B[s[q]].size))
    && if best == 0 then best_size == NO_SIZE else best in s && best in B && asize <= B[best].size == best_size
  }

  lemma BestSoFarStep(B: Blocks, s: seq<int>, k: int, asize: int, best: int, best_size: int)
    requires BestSoFar(B, s, k, asize, best, best_size) && k < |s| && s[k] in B && s[k] != 0 && B[s[k]].size < NO_SIZE
    ensures var a := B[s[k]].size;
            if asize <= a && a < best_size then BestSoFar(B, s, k + 1, asize, s[k], a) else BestSoFar(B, s, k + 1, asize, best, best_size)
  {
  }

  /** No block of class `n` fits. */
  ghost predicate ClassTooSmall(B: Blocks, L: Lists, asize: int, n: int) {
    forall a :: 0 <= n < |L| && a in L[n] && a in B ==> B[a].size < asize
  }

  /** `bp` is the best choice within class `n`, and smaller classes have nothing. */
  lemma BestInClass(h: Heap, asize: int, n: nat, bp: int)
    requires Ready(h) && n < LISTLIMIT && ListIndex(asize) <= n
    requires forall i :: ListIndex(asize) <= i < n ==> ClassTooSmall(h.B, h.L, asize, i)
    requires bp in h.L[n] && bp in h.B && asize <= h.B[bp].size
    requires forall a :: a in h.L[n] && a in h.B && asize <= h.B[a].size ==> h.B[bp].size <= h.B[a].size
    ensures BestFit(h.B, asize, bp)
  {
    ListFacts(h.m, h.seg, h.B, h.L, n);
    var k :| 0 <= k < |h.L[n]| && h.L[n][k] == bp;
    assert IsMember(h.B, h.L[n][k], n);
    TileFacts(h.B, h.brk, bp);
    forall a | IsFree(h.B, a) && asize <= h.B[a].size ensures h.B[bp].size <= h.B[a].size {
      TidyFacts(h, a);
      var i := ListIndex(h.B[a].size);
      ClassesAreOrdered(h.B[a].size, asize);
      ClassesAreOrdered(h.B[bp].size, h.B[a].size);
      assert ListIndex(asize) <= i < n ==> ClassTooSmall(h.B, h.L, asize, i);
    }
  }

  lemma NothingFits(h: Heap, asize: int)
    requires Ready(h)
    requires forall i :: ListIndex(asize) <= i < LISTLIMIT ==> ClassTooSmall(h.B, h.L, asize, i)
    ensures BestFit(h.B, asize, 0)
  {
    forall a | IsFree(h.B, a) ensures h.B[a].size < asize {
      TidyFacts(h, a);
      ClassesAreOrdered(h.B[a].size, asize);
      if ListIndex(asize) <= ListIndex(h.B[a].size) {
        assert ClassTooSmall(h.B, h.L, asize, ListIndex(h.B[a].size));
      }
    }
  }

  /** Why the first block of a larger class will do: it fits, and it is the smallest of its list. */
  lemma HeadOfList(h: Heap, asize: int, n: nat)
    requires Ready(h) && n < LISTLIMIT && ListIndex(asize) < n
    ensures h.seg[n] == 0 ==> ClassTooSmall(h.B, h.L, asize, n)
    ensures h.seg[n] != 0 ==> h.seg[n] in h.L[n] && h.seg[n] in h.B && asize <= h.B[h.seg[n]].size
    ensures h.seg[n] != 0 ==> forall a :: a in h.L[n] && a in h.B ==> h.B[h.seg[n]].size <= h.B[a].size
  {
    var s := h.L[n];
    ListFacts(h.m, h.seg, h.B, h.L, n);
    MembersNotNull(h.B, h.brk, s, n);
    if s != [] {
      assert IsMember(h.B, s[0], n);
      ClassesAreOrdered(asize, h.B[s[0]].size);
      forall a | a in s && a in h.B ensures h.B[s[0]].size <= h.B[a].size {
        var k :| 0 <= k < |s| && s[k] == a;
        if 0 < k {
          assert SizeOrdered(h.B, s[0], s[k]);
        }
      }
    }
  }

  lemma NothingInEmpty(L: Lists)
    ensures NoneListedIn(L, 1, 1)
  {
  }

  /** The bytes `extend_heap` asks for. */
  function ExtendBytes(words: int): (size: int)
    requires 0 <= words
    ensures size % 8 == 0 && 16 <= size && 4 * words <= size
  {
    var size := if words % 2 == 1 then (words + 1) * WSIZE else words * WSIZE;
    if size < MIN_FREE_BLOCK_SIZE then MIN_FREE_BLOCK_SIZE else size
  }

  lemma FreeNotNull(h: Heap, r: int)
    requires Ready(h) && IsFree(h.B, r)
    ensures r != 0
  {
    TileFacts(h.B, h.brk, r);
  }

  lemma EpilogueFacts(h: Heap, size: int)
    requires Ready(h) && 16 <= size && size % 8 == 0 && h.brk + size <= 4 * |h.m|
    ensures IsCell(h.m, h.brk - 4) && PrevBit(Get(h.m, h.brk - 4)) == PrevOf(h.B, h.brk)
    ensures HasRoom(h.m, h.brk, size) && PROLOGUE < h.brk
  {
    BreakFacts(h.B, h.brk);
    ReadHeader(h, 1, 0, h.brk);
  }

  /** Room for an allocated block of `asize` bytes and a free one of `remain` behind it. */
  ghost predicate SplitRoom(m: Memory, bp: int, asize: int, remain: int, prev_alloc: bool) {
    var m1 := WriteAlloc(m, bp, asize, prev_alloc);
    HasRoom(m, bp, asize) && IsCell(m1, bp - 4) && SizeOf(Get(m1, bp - 4)) == asize && HasRoom(m1, bp + asize, remain)
  }

  lemma SplitHasRoom(m: Memory, bp: int, asize: int, remain: int, prev_alloc: bool)
    requires HasRoom(m, bp, asize + remain) && asize % 8 == 0 && 8 <= asize && 16 <= remain
    ensures SplitRoom(m, bp, asize, remain, prev_alloc)
  {
    RoomSplit(m, bp, bp + asize, bp + asize + remain);
    WriteAllocEffect(m, bp, asize, prev_alloc);
    RoomCells(m, bp, asize);
    hide WriteAlloc, Get;
  }

  /** From `h` to `h1`, the callers gained the block at `r`, of `n` bytes. */
  ghost predicate Gained(h: Heap, h1: Heap, r: int, n: int) {
    LiveChange(h, h1, 0, r) && IsLive(h1, r) && h1.B[r].size == n && h1.brk == h.brk
  }

  /** The same, and the block is new and aligned. */
  ghost predicate Placed(h: Heap, h1: Heap, r: int, n: int) {
    Gained(h, h1, r, n) && !IsLive(h, r) && r % 8 == 0
  }

  lemma GainedAfter(h: Heap, h1: Heap, h2: Heap, r: int, asize: int)
    requires LiveChange(h, h1, 0, 0) && (Gained(h1, h2, r, asize) || Carved(h1, h2, 0, r, asize)) && h1.brk == h.brk
    ensures Gained(h, h2, r, asize)
  {
    QuietThenLiveChange(h, h1, h2, 0, r);
  }

  lemma WillGain(h: Heap, h1: Heap, r: int, asize: int)
    requires LiveChange(h, h1, 0, 0) && h1.brk == h.brk
    ensures forall h2 :: Carved(h1, h2, 0, r, asize) ==> Gained(h, h2, r, asize)
  {
    forall h2 | Carved(h1, h2, 0, r, asize) ensures Gained(h, h2, r, asize) {
      GainedAfter(h, h1, h2, r, asize);
    }
  }

  lemma PlacedInside(h: Heap, h1: Heap, bp: int, r: int, asize: int)
    requires Ready(h) && Ready(h1) && IsFree(h.B, bp) && bp <= r < bp + h.B[bp].size && Gained(h, h1, r, asize)
    ensures Placed(h, h1, r, asize)
  {
    TileFacts(h1.B, h1.brk, r);
    if IsLive(h, r) {
      Between(h.B, h.brk, bp, r);
    }
  }

  /** Where `place` puts the block: at the end if both it and what is left over are large. */
  function PlaceOf(bp: int, asize: int, csize: int): int {
    if csize - asize >= SPLIT_THRESHOLD && asize >= SPLIT_THRESHOLD then bp + csize - asize else bp
  }

  /** What is left over of the free block, if it can stand alone, is a free block on the list of its class. */
  ghost predicate RestIsListed(h: Heap, bp: int, r: int, asize: int, csize: int) {
    csize - asize >= MIN_FREE_BLOCK_SIZE ==>
      var rest := if r == bp then bp + asize else bp;
      IsFree(h.B, rest) && h.B[rest].size == csize - asize && TidyAt(h.B, h.L, rest)
  }

  lemma RestListed(h: Heap, h1: Heap, bp: int, r: int, asize: int)
    requires Ready(h) && Ready(h1) && IsFree(h.B, bp) && 8 <= asize <= h.B[bp].size && asize % 8 == 0
    requires Gained(h, h1, r, Handed(asize, h.B[bp].size)) && r == PlaceOf(bp, asize, h.B[bp].size)
    ensures RestIsListed(h1, bp, r, asize, h.B[bp].size)
  {
    var csize := h.B[bp].size;
    if csize - asize >= MIN_FREE_BLOCK_SIZE {
      BordersStay(h, h1, bp, r, csize);
      TileFacts(h1.B, h1.brk, r);
      OthersStayOut(h, h1, bp, r, csize);
      AfterFree(h, bp);
      hide Ready, LiveChange;
      var rest, hi := if r == bp then bp + asize else bp, if r == bp then bp + csize else r;
      ReadyIsMerged(h1);
      GapIsFree(h1, rest, hi);
      TidyFacts(h1, rest);
    }
  }

  /** The allocated blocks around a free block stay where they are. */
  lemma BordersStay(h: Heap, h1: Heap, bp: int, r: int, csize: int)
    requires Ready(h) && Ready(h1) && IsFree(h.B, bp) && csize == h.B[bp].size && LiveChange(h, h1, 0, r) && h1.brk == h.brk
    ensures bp in h1.B && bp + csize in h1.B && h1.B[bp + csize].alloc
  {
    AfterFree(h, bp);
    TidyFacts(h, bp);
    var p := PreviousBlock(h.B, h.brk, bp);
    TileFacts(h.B, h.brk, p);
    TileFacts(h.B, h.brk, bp + csize);
    assert p != PROLOGUE ==> LiveKept(h, h1, p);
    assert bp + csize != h.brk ==> LiveKept(h, h1, bp + csize);
    TileFacts(h1.B, h1.brk, p);
    BreakFacts(h1.B, h1.brk);
  }

  /** Every live block but the new one keeps out of what was the free block. */
  lemma OthersStayOut(h: Heap, h1: Heap, bp: int, r: int, csize: int)
    requires Ready(h) && IsFree(h.B, bp) && csize == h.B[bp].size && LiveChange(h, h1, 0, r)
    ensures forall a :: IsLive(h1, a) && a != r ==> a + h1.B[a].size <= bp || bp + csize <= a
  {
    forall a | IsLive(h1, a) && a != r ensures a + h1.B[a].size <= bp || bp + csize <= a {
      assert LiveKept(h, h1, a);
      if a < bp { Apart(h.B, h.brk, a, bp); } else { Apart(h.B, h.brk, bp, a); }
    }
  }

  lemma HeaderAfterHole(h: Heap, bp: int, hole: int)
    requires SoundBut(h, hole, hole) && bp in h.B && bp < hole
    ensures IsCell(h.m, bp - 4) && SizeOf(Get(h.m, bp - 4)) == h.B[bp].size
  {
    ReadHeader(h, hole, hole, bp);
  }

  /** How much `mm_malloc` asks for when nothing fits. */
  function ExtendSize(asize: int): (r: int)
    requires asize % 8 == 0 && 8 <= asize
    ensures asize <= r && r % 8 == 0 && CHUNKSIZE <= r
    ensures asize < 120 || asize > 520 ==> r == Max(asize, CHUNKSIZE)
    ensures 120 <= asize < 400 ==> r == 2 * asize
    ensures 400 <= asize <= 520 ==> r == 4 * asize
  {
    if 400 <= asize <= 520 then Max(asize * 4, CHUNKSIZE)
    else if 120 <= asize < 400 then Max(asize * 2, CHUNKSIZE)
    else Max(asize, CHUNKSIZE)
  }

  /** Requests for which the block size still fits the 32-bit argument of `mem_sbrk`. */
  predicate IsRequest(size: int) {
    0 <= size < 0xFFFF_FFF0
  }

  /** The block at `r` lies in a free block of least size among those large enough, which is used up if what is
      left over could not stand alone; or there was none, and the heap has grown by what `mm_malloc` asks for. */
  ghost predicate Served(h: Heap, h1: Heap, r: int, asize: int) {
    exists bp :: BestFit(h.B, asize, bp) && r in h1.B &&
      if bp == 0 then asize % 8 == 0 && 8 <= asize && h1.brk == h.brk + ExtendSize(asize)
      else h1.brk == h.brk && r == PlaceOf(bp, asize, h.B[bp].size) && h1.B[r].size == Handed(asize, h.B[bp].size)
  }

  lemma ServedFrom(h: Heap, h1: Heap, bp: int, r: int, asize: int)
    requires BestFit(h.B, asize, bp) && bp != 0 && r in h1.B && h1.brk == h.brk
    requires r == PlaceOf(bp, asize, h.B[bp].size) && h1.B[r].size == Handed(asize, h.B[bp].size)
    ensures Served(h, h1, r, asize)
  {
  }

  /** How far the heap must grow, for a block that is `missing` bytes short. */
  function GrowBytes(missing: int): (r: int)
    requires 0 < missing
    ensures r % 8 == 0 && missing <= r && 16 <= r && r - missing < 16
  {
    if Align(missing) < MIN_FREE_BLOCK_SIZE then Align(MIN_FREE_BLOCK_SIZE) else Align(missing)
  }

  // ----- when a request fails

  /** No free block is large enough for `asize` bytes, and the break cannot move by what `mm_malloc` asks for;
      `top` is the end of the memory. */
  ghost predicate NoRoom(h: Heap, asize: int, top: int) {
    BestFit(h.B, asize, 0) && asize % 8 == 0 && 8 <= asize && h.brk + ExtendSize(asize) > top
  }

  /** The block can grow to `asize` bytes where it is: over the free block behind it, or over the break, or
      over both. */
  ghost predicate GrowsInPlace(h: Heap, ptr: int, asize: int, top: int)
    requires ptr in h.B
  {
    var missing, next := asize - h.B[ptr].size, ptr + h.B[ptr].size;
    || missing <= 0
    || (IsFree(h.B, next) && missing <= h.B[next].size)
    || (next == h.brk && h.brk + GrowBytes(missing) <= top)
    || (IsFree(h.B, next) && next + h.B[next].size == h.brk && h.brk + GrowBytes(missing - h.B[next].size) <= top)
  }

  /** A free block lies in front, and it, the block, and the block behind if that is free too, make `asize`
      bytes. */
  ghost predicate GrowsDown(h: Heap, ptr: int, asize: int)
    requires ptr in h.B
  {
    exists p :: IsFree(h.B, p) && p + h.B[p].size == ptr && asize <= h.B[p].size + h.B[ptr].size + FreeBehind(h, ptr)
  }

  ghost predicate InFront(h: Heap, p: int, ptr: int) {
    IsFree(h.B, p) && p + h.B[p].size == ptr
  }

  /** The block stays where it is if it can grow there, and moves into the free block in front if that helps. */
  ghost predicate MovesOnlyIfMust(h: Heap, ptr: int, r: int, asize: int, top: int)
    requires ptr in h.B
  {
    if GrowsInPlace(h, ptr, asize, top) then r == ptr else GrowsDown(h, ptr, asize) ==> InFront(h, r, ptr)
  }

  ghost function FreeBehind(h: Heap, ptr: int): int
    requires ptr in h.B
  {
    var next := ptr + h.B[ptr].size;
    if IsFree(h.B, next) then h.B[next].size else 0
  }

  /** How far the break moves when the block is given `asize` bytes: by what is missing if the block, or the
      free one behind it, is the last one and memory suffices; by what `mm_malloc` asks for if the block must
      move and no free block will do; and otherwise not at all. */
  ghost function GrowthFor(h: Heap, ptr: int, asize: int, top: int): int
    requires ptr in h.B && asize % 8 == 0 && 8 <= asize
  {
    var missing, next := asize - h.B[ptr].size, ptr + h.B[ptr].size;
    if missing <= 0 || (IsFree(h.B, next) && missing <= h.B[next].size) then 0
    else if next == h.brk && h.brk + GrowBytes(missing) <= top then GrowBytes(missing)
    else if IsFree(h.B, next) && next + h.B[next].size == h.brk && h.brk + GrowBytes(missing - h.B[next].size) <= top
      then GrowBytes(missing - h.B[next].size)
    else if GrowsDown(h, ptr, asize) || !BestFit(h.B, asize, 0) then 0
    else ExtendSize(asize)
  }

  lemma GrowthElsewhere(h: Heap, ptr: int, asize: int, top: int)
    requires ptr in h.B && asize % 8 == 0 && 8 <= asize && !GrowsInPlace(h, ptr, asize, top)
    ensures GrowthFor(h, ptr, asize, top) == if GrowsDown(h, ptr, asize) || !BestFit(h.B, asize, 0) then 0 else ExtendSize(asize)
  {
    hide GrowsDown, BestFit;
  }

  /** There is no way to give the block `asize` bytes, in place or elsewhere. */
  ghost predicate CannotResize(h: Heap, ptr: int, asize: int, top: int) {
    ptr in h.B && !GrowsInPlace(h, ptr, asize, top) && !GrowsDown(h, ptr, asize) && NoRoom(h, asize, top)
  }

  /** Only one free block can lie in front. */
  lemma OneInFront(h: Heap, ptr: int, p: int, q: int)
    requires Ready(h) && ptr in h.B && IsFree(h.B, p) && p + h.B[p].size == ptr && IsFree(h.B, q) && q + h.B[q].size == ptr
    ensures p == q
  {
    assert p < q ==> EndsBefore(h.B, p, q);
    assert q < p ==> EndsBefore(h.B, q, p);
    TileFacts(h.B, h.brk, p);
    TileFacts(h.B, h.brk, q);
  }

  /** Whatever keeps all blocks after `h1` has lost just `gone` since `h`. */
  ghost predicate FreesQuietly(h: Heap, h1: Heap, gone: int) {
    forall h2 :: LiveChange(h1, h2, 0, 0) ==> LiveChange(h, h2, gone, 0)
  }

  lemma QuietlyFreed(h: Heap, h1: Heap, h2: Heap, gone: int)
    requires FreesQuietly(h, h1, gone) && LiveChange(h1, h2, 0, 0)
    ensures LiveChange(h, h2, gone, 0)
  {
  }

  lemma GrowsDownBy(h: Heap, ptr: int, p: int, asize: int)
    requires Ready(h) && ptr in h.B && IsFree(h.B, p) && p + h.B[p].size == ptr
    ensures GrowsDown(h, ptr, asize) <==> asize <= h.B[p].size + h.B[ptr].size + FreeBehind(h, ptr)
  {
    if GrowsDown(h, ptr, asize) {
      var q :| IsFree(h.B, q) && q + h.B[q].size == ptr && asize <= h.B[q].size + h.B[ptr].size + FreeBehind(h, ptr);
      OneInFront(h, ptr, p, q);
    }
  }

  lemma NothingInFront(h: Heap, ptr: int, asize: int)
    requires Ready(h) && ptr in h.B && h.B[ptr].prevAlloc
    ensures !GrowsDown(h, ptr, asize)
  {
    AllocatedInFront(h.B, h.brk, ptr);
    hide Ready;
  }

  lemma AllocatedInFront(B: Blocks, brk: int, ptr: int)
    requires Tiled(B, brk) && ptr in B && B[ptr].prevAlloc
    ensures forall p :: IsFree(B, p) ==> p + B[p].size != ptr
  {
    forall p | IsFree(B, p) ensures p + B[p].size != ptr { TileFacts(B, brk, p); }
  }

  lemma LivePlaced(h: Heap, h1: Heap, h2: Heap, r: int, n: int)
    requires LiveChange(h, h1, 0, 0) && Placed(h1, h2, r, n)
    ensures LiveChange(h, h2, 0, r) && IsLive(h2, r) && !IsLive(h, r) && r % 8 == 0 && h2.B[r].size == n
  {
    QuietThenLiveChange(h, h1, h2, 0, r);
    assert IsLive(h, r) ==> LiveKept(h, h1, r);
  }

  // ----- moving contents

  ghost predicate WordsMoved(m: Memory, src: int, m': Memory, dst: int, k: int) {
    forall j :: 0 <= j < k ==> WordMoved(m, src, m', dst, j)
  }

  ghost predicate WordMoved(m: Memory, src: int, m': Memory, dst: int, j: int) {
    Get(m', dst + 4 * j) == Get(m, src + 4 * j)
  }

  lemma MovedOneMore(m: Memory, m1: Memory, m2: Memory, dst: int, src: int, k: int)
    requires 0 <= k && IsCell(m, dst + 4 * k) && (dst <= src || src + 4 * k + 4 <= dst)
    requires SameOutside(m, m1, dst, dst + 4 * k) && WordsMoved(m, src, m1, dst, k)
    requires m2 == Put(m1, dst + 4 * k, Get(m1, src + 4 * k))
    ensures SameOutside(m, m2, dst, dst + 4 * (k + 1)) && WordsMoved(m, src, m2, dst, k + 1)
  {
    CellsKept(m, m1);
    hide Get, Put, IsCell;
    forall j | 0 <= j < k + 1 ensures WordMoved(m, src, m2, dst, j) {
      if j < k {
        assert WordMoved(m, src, m1, dst, j);
      }
    }
  }

  lemma BlendIsWord(src: int, dst: int, k: int)
    requires 0 < k < 4
    ensures IsWord(Blend(src, dst, k))
  {
    BlendBytes(src, dst, k, 0);
  }

  /** The last word of the source is read before anything is written over it. */
  lemma TailUnmoved(m: Memory, m1: Memory, dst: int, src: int, n: int)
    requires 0 <= n && (dst <= src || src + n <= dst) && SameOutside(m, m1, dst, dst + 4 * (n / 4))
    ensures n % 4 != 0 ==> Get(m1, src + 4 * (n / 4)) == Get(m, src + 4 * (n / 4))
  {
    hide Get;
    var q, r := n / 4, n % 4;
    assert n == 4 * q + r;
  }

  lemma OutsideTail(m: Memory, m1: Memory, m2: Memory, dst: int, src: int, n: int)
    requires 0 <= n && SameOutside(m, m1, dst, dst + 4 * (n / 4))
    requires (n + 3) / 4 * 4 == if n % 4 == 0 then 4 * (n / 4) else 4 * (n / 4) + 4
    requires var p := 4 * (n / 4);
      m2 == if n % 4 == 0 then m1 else Put(m1, dst + p, Blend(Get(m1, src + p), Get(m1, dst + p), n % 4))
    ensures SameOutside(m, m2, dst, dst + (n + 3) / 4 * 4)
  {
    hide Blend, IsCell, Put, Get;
  }

  /** Words moved one by one, and the tail blended in, are bytes moved one by one. */
  lemma MovedBytes(m: Memory, m1: Memory, m2: Memory, dst: int, src: int, n: int)
    requires 0 <= n && 0 <= dst && 0 <= src && dst % 4 == 0 && src % 4 == 0 && dst + n <= 4 * |m| && src + n <= 4 * |m|
    requires dst <= src || src + n <= dst
    requires SameOutside(m, m1, dst, dst + 4 * (n / 4)) && WordsMoved(m, src, m1, dst, n / 4)
    requires var p := 4 * (n / 4);
      m2 == if n % 4 == 0 then m1 else Put(m1, dst + p, Blend(Get(m1, src + p), Get(m1, dst + p), n % 4))
    ensures SameOutside(m, m2, dst, dst + (n + 3) / 4 * 4) && BytesMoved(m, src, m2, dst, n)
  {
    hide Get, Blend, Put, IsCell, WordsMoved, ByteMoved;
    TailInside(m, m1, dst, src, n);
    TailUnmoved(m, m1, dst, src, n);
    OutsideTail(m, m1, m2, dst, src, n);
    forall k | 0 <= k < n ensures ByteMoved(m, src, m2, dst, k) {
      MovedByte(m, m1, m2, dst, src, n, k);
    }
  }

  lemma MovedByte(m: Memory, m1: Memory, m2: Memory, dst: int, src: int, n: int, k: int)
    requires 0 <= k < n && dst % 4 == 0 && src % 4 == 0 && |m1| == |m|
    requires WordsMoved(m, src, m1, dst, n / 4)
    requires var p := 4 * (n / 4);
      && (n % 4 != 0 ==> Get(m1, src + p) == Get(m, src + p) && IsCell(m1, dst + p))
      && m2 == if n % 4 == 0 then m1 else Put(m1, dst + p, Blend(Get(m1, src + p), Get(m1, dst + p), n % 4))
    ensures ByteMoved(m, src, m2, dst, k)
  {
    hide Get, Put, Blend, ByteOf, IsCell;
    var p := 4 * (n / 4);
    AddressOfByte(dst, k);
    AddressOfByte(src, k);
    if k / 4 < n / 4 {
      assert WordMoved(m, src, m1, dst, k / 4);
    } else {
      BlendBytes(Get(m1, src + p), Get(m1, dst + p), n % 4, k % 4);
    }
  }

  lemma TailInside(m: Memory, m1: Memory, dst: int, src: int, n: int)
    requires 0 <= n && 0 <= dst && 0 <= src && dst % 4 == 0 && src % 4 == 0 && dst + n <= 4 * |m| && src + n <= 4 * |m|
    requires |m1| == |m|
    ensures n % 4 != 0 ==> IsCell(m1, dst + 4 * (n / 4)) && IsCell(m1, src + 4 * (n / 4))
    ensures n % 4 != 0 ==> (n + 3) / 4 * 4 == 4 * (n / 4) + 4
    ensures n % 4 == 0 ==> (n + 3) / 4 * 4 == 4 * (n / 4)
  {
  }

  lemma AddressOfByte(a: int, k: int)
    requires a % 4 == 0
    ensures (a + k) % 4 == k % 4 && a + k - (a + k) % 4 == a + 4 * (k / 4)
  {
  }

  // ----- realloc

  lemma NothingMoved(h: Heap, ptr: int, size: int, asize: int)
    requires Ready(h) && IsLive(h, ptr) && asize <= h.B[ptr].size < asize + MIN_FREE_BLOCK_SIZE && 0 <= size <= asize - 4
    ensures Resized(h, h, ptr, ptr, size, asize)
  {
    ResizedInPlace(h, h, ptr, size, asize, asize - 4);
  }

  /** What the program reads around a caller's block. */
  lemma LiveFacts(h: Heap, ptr: int)
    requires Ready(h) && IsLive(h, ptr)
    ensures IsCell(h.m, ptr - 4) && PrevBit(Get(h.m, ptr - 4)) == h.B[ptr].prevAlloc && ptr % 8 == 0 && h.B[ptr].size % 8 == 0
    ensures var next := ptr + h.B[ptr].size; var w := Get(h.m, next - 4);
      && next in h.B && IsCell(h.m, next - 4) && SizeOf(w) == h.B[next].size && AllocBit(w) == h.B[next].alloc
      && (h.B[next].size == 0 <==> next == h.brk) && 0 <= h.B[next].size
  {
    TileFacts(h.B, h.brk, ptr);
    TileFacts(h.B, h.brk, ptr + h.B[ptr].size);
    ReadHeader(h, 1, 0, ptr);
    ReadHeader(h, 1, 0, ptr + h.B[ptr].size);
  }

  lemma FreeNextFacts(h: Heap, ptr: int)
    requires Ready(h) && IsLive(h, ptr) && IsFree(h.B, ptr + h.B[ptr].size)
    ensures var next := ptr + h.B[ptr].size; var after := next + h.B[next].size;
      && after in h.B && IsCell(h.m, after - 4) && SizeOf(Get(h.m, after - 4)) == h.B[after].size
      && (h.B[after].size == 0 <==> after == h.brk) && 16 <= h.B[next].size && h.B[next].size % 8 == 0
  {
    var next := ptr + h.B[ptr].size;
    TileFacts(h.B, h.brk, next);
    TileFacts(h.B, h.brk, next + h.B[next].size);
    ReadHeader(h, 1, 0, next + h.B[next].size);
  }

  lemma LivePrevFacts(h: Heap, ptr: int) returns (p: int)
    requires Ready(h) && IsLive(h, ptr) && !h.B[ptr].prevAlloc
    ensures IsCell(h.m, ptr - 8) && p == ptr - SizeOf(Get(h.m, ptr - 8))
    ensures IsFree(h.B, p) && p + h.B[p].size == ptr && 16 <= h.B[p].size && h.B[p].size % 8 == 0 && p % 8 == 0 && PROLOGUE < p
  {
    ReadHeader(h, 1, 0, ptr);
    p := PreviousBlock(h.B, h.brk, ptr);
    TileFacts(h.B, h.brk, p);
    HeaderAt(h, 1, 0, p);
  }

  /** The header in front of the stretch tells what lies before it. */
  ghost predicate PrevTold(h: Heap, lo: int) {
    IsCell(h.m, lo - 4) && PrevBit(Get(h.m, lo - 4)) == PrevOf(h.B, lo)
  }

  lemma PrevStillTold(h: Heap, h1: Heap, lo: int, hi: int)
    requires PrevTold(h, lo) && SameOutside(h.m, h1.m, lo, hi) && h1.B == h.B
    ensures PrevTold(h1, lo)
  {
  }

  lemma MoveRoom(h: Heap, lo: int, total: int, ptr: int, oldsize: int)
    requires Takeable(h, lo, lo + total, ptr) && lo + 16 <= ptr && ptr + oldsize <= lo + total && 16 <= oldsize
    requires ptr % 8 == 0 && oldsize % 8 == 0
    ensures 0 <= lo && lo % 4 == 0 && ptr % 4 == 0 && lo + oldsize <= 4 * |h.m| && ptr + oldsize <= 4 * |h.m|
    ensures (oldsize - 4 + 3) / 4 * 4 == oldsize - 4
  {
    TakeableFacts(h, lo, lo + total, ptr);
    RoundedUp(oldsize - 4, oldsize);
    Fourfold(lo);
    Fourfold(ptr);
    hide Takeable, HasRoom, IsCell, CutOk;
  }

  lemma StillListed(h: Heap, h1: Heap, x: int, y: int)
    requires Ready(h) && Removal(h, h1, x) && IsFree(h.B, y) && x != y
    ensures IsFree(h1.B, y) && y in h1.L[ListIndex(h1.B[y].size)]
  {
    TidyFacts(h, y);
  }

  lemma GrowRoom(h: Heap, ptr: int, brk': int)
    requires Sound(h) && Takeable(h, ptr, h.brk, ptr) && h.brk + 16 <= brk' <= 4 * |h.m| && (brk' - h.brk) % 8 == 0
    ensures HasRoom(h.m, ptr, brk' - ptr) && IsCell(h.m, brk' - 4)
    ensures IsCell(h.m, ptr - 4) && PrevBit(Get(h.m, ptr - 4)) == PrevOf(h.B, ptr)
  {
    TakeableFacts(h, ptr, h.brk, ptr);
    ReadHeader(h, 1, 0, ptr);
    RoomGrown(h.m, ptr, h.brk, brk');
    hide HasRoom, IsCell, Takeable, SoundBut;
  }

  lemma RoomGrown(m: Memory, lo: int, hi: int, hi': int)
    requires HasRoom(m, lo, hi - lo) && hi <= hi' <= 4 * |m| && (hi' - hi) % 8 == 0
    ensures HasRoom(m, lo, hi' - lo) && IsCell(m, hi' - 4)
  {
    assert (hi' - lo) % 8 == 0;
    RoomCells(m, lo, hi' - lo);
  }

  lemma CopyRoom(h: Heap, h1: Heap, ptr: int, r: int, size: int, asize: int, n: int)
    requires Ready(h) && Ready(h1) && IsLive(h, ptr) && IsLive(h1, r) && !IsLive(h, r) && LiveChange(h, h1, 0, r)
    requires asize <= h1.B[r].size && 0 < size <= asize - 4 && asize % 8 == 0 && 16 <= h.B[ptr].size && n == Min(size, h.B[ptr].size - 4)
    ensures IsLive(h1, ptr) && h1.B[ptr].size == h.B[ptr].size
    ensures 0 <= n && 0 <= ptr && 0 <= r && ptr % 4 == 0 && r % 4 == 0 && ptr + n <= 4 * |h1.m| && r + n <= 4 * |h1.m|
    ensures r <= ptr || ptr + n <= r
    ensures (n + 3) / 4 * 4 <= h1.B[r].size - 4
  {
    assert LiveKept(h, h1, ptr);
    LiveRoom(h1, ptr);
    LiveRoom(h1, r);
    Between(h1.B, h1.brk, ptr, r);
    RoundedUp(n, asize);
    hide LiveChange, Ready;
  }

  lemma RoundedUp(n: int, asize: int)
    requires asize % 8 == 0 && n <= asize - 4
    ensures (n + 3) / 4 * 4 <= asize - 4
    ensures n == asize - 4 ==> (n + 3) / 4 * 4 == n && n % 4 == 0
  {
    var q := asize / 8;
    assert n + 3 <= 8 * q - 1;
    assert (n + 3) / 4 <= 2 * q - 1;
    assert n == asize - 4 ==> n == 4 * (2 * q - 1);
  }

  // ----- init

  ghost function FrameBlocks(): Blocks {
    map[8 := Block(8, true, true), 16 := Block(0, true, true)]
  }

  /** The heap that `mm_init` starts from: nothing between the prologue and the epilogue. */
  lemma FrameReady(h: Heap)
    requires h.brk == 16 <= 4 * |h.m| && h.B == FrameBlocks()
    requires |h.seg| == |h.L| == LISTLIMIT && forall i :: 0 <= i < LISTLIMIT ==> h.seg[i] == 0 && h.L[i] == []
    requires Get(h.m, 4) == Pack(8, true, true) && Get(h.m, 12) == Pack(0, true, true)
    ensures Ready(h) && forall a :: !IsLive(h, a)
  {
    forall a | a in h.B ensures TileOk(h.B, h.brk, a) && HeaderOk(h.m, h.B, a) {
    }
    forall a, b | a in h.B && b in h.B && a < b ensures EndsBefore(h.B, a, b) {
    }
    forall i | 0 <= i < LISTLIMIT ensures ListOk(h.m, h.seg[i], h.B, h.L[i], i) {
    }
  }

  class Allocator {
    const mem: array<int>
    const seg_free_lists: array<int>
    var mem_brk: int
    ghost var end: int
    ghost var B: Blocks
    ghost var L: Lists

    /** The memory holds 32-bit words, and the break is inside it. */
    ghost predicate MemOk()
      reads this, mem, seg_free_lists
    {
      && mem != seg_free_lists && seg_free_lists.Length == LISTLIMIT
      && AllWords(mem[..]) && 0 <= end <= mem_brk <= 4 * mem.Length <= 0x7FFF_FFFF
    }

    ghost function H(): Heap
      reads this, mem, seg_free_lists
    {
      Heap(mem[..], seg_free_lists[..], end, B, L)
    }

    /** Tiling, bits and lists are all in order up to `end`. */
    ghost predicate Whole()
      reads this, mem, seg_free_lists
    {
      MemOk() && Ready(H())
    }

    /** Between two calls `end` is the break. */
    ghost predicate Valid()
      reads this, mem, seg_free_lists
    {
      Whole() && end == mem_brk
    }

    // ----- words

    method PutWord(p: int, v: int)
      requires MemOk() && IsCell(mem[..], p) && IsWord(v)
      modifies mem
      ensures MemOk() && mem[..] == Put(old(mem[..]), p, v)
      ensures seg_free_lists[..] == old(seg_free_lists[..])
    {
      PutWords(mem[..], p, v);
      mem[p / 4] := v;
    }

    method GetWord(p: int) returns (v: int)
      requires MemOk() && IsCell(mem[..], p)
      ensures v == Get(mem[..], p) && IsWord(v)
    {
      GetWords(mem[..], p);
      v := mem[p / 4];
    }

    /** `GET_SIZE(HDRP(bp))`. */
    method GetSize(bp: int) returns (size: int)
      requires MemOk() && IsCell(mem[..], bp - 4)
      ensures size == SizeOf(Get(mem[..], bp - 4))
    {
      var w := GetWord(bp - 4);
      size := SizeOf(w);
    }

    method SetNextPrevAlloc(bp: int, prev_alloc: bool)
      requires MemOk() && IsCell(mem[..], bp - 4) && IsCell(mem[..], bp + SizeOf(Get(mem[..], bp - 4)) - 4)
      modifies mem
      ensures MemOk() && seg_free_lists[..] == old(seg_free_lists[..])
      ensures var p := bp + SizeOf(Get(old(mem[..]), bp - 4)) - 4;
        mem[..] == Put(old(mem[..]), p, WithPrev(Get(old(mem[..]), p), prev_alloc))
    {
      var size := GetSize(bp);
      var next_hdr := bp + size - 4;
      var value := GetWord(next_hdr);
      PutWord(next_hdr, WithPrev(value, prev_alloc));
    }

    method WriteAllocBlock(bp: int, size: int, prev_alloc: bool)
      requires MemOk() && HasRoom(mem[..], bp, size)
      modifies mem
      ensures MemOk() && seg_free_lists[..] == old(seg_free_lists[..])
      ensures mem[..] == WriteAlloc(old(mem[..]), bp, size, prev_alloc)
    {
      RoomCells(mem[..], bp, size);
      RoomSize(mem[..], bp, size);
      hide HasRoom, Get, Put, SizeOf, Pack, WithPrev, AllWords, IsCell;
      ghost var m0 := mem[..];
      PutWord(bp - 4, Pack(size, prev_alloc, true));
      CellsKept(m0, mem[..]);
      SetNextPrevAlloc(bp, true);
    }

    /** The header, and the footer found through it. */
    method WriteTags(bp: int, ghost size: int, tag: int)
      requires MemOk() && IsCell(mem[..], bp - 4) && IsCell(mem[..], bp + size - 8) && IsWord(tag) && SizeOf(tag) == size
      modifies mem
      ensures MemOk() && seg_free_lists[..] == old(seg_free_lists[..])
      ensures mem[..] == WriteTwo(old(mem[..]), bp, size, tag)
    {
      hide Get, Put, SizeOf, AllWords, IsCell, IsWord;
      ghost var m0 := mem[..];
      PutWord(bp - 4, tag);
      CellsKept(m0, mem[..]);
      var fsize := GetSize(bp);
      PutWord(bp + fsize - 8, tag);
    }

    method WriteTaggedBlock(bp: int, ghost size: int, tag: int)
      requires MemOk() && IsCell(mem[..], bp - 4) && IsCell(mem[..], bp + size - 8) && IsWord(tag) && SizeOf(tag) == size
      requires IsCell(mem[..], bp) && IsCell(mem[..], bp + 4) && IsCell(mem[..], bp + size - 4) && 16 <= size
      modifies mem
      ensures MemOk() && seg_free_lists[..] == old(seg_free_lists[..])
      ensures mem[..] == WriteTagged(old(mem[..]), bp, size, tag)
    {
      hide Get, Put, SizeOf, WithPrev, AllWords, IsCell, WriteTwo;
      ghost var m0 := mem[..];
      WriteTwoHeader(m0, bp, size, tag);
      WriteTags(bp, size, tag);
      CellsKept(m0, mem[..]);
      PutWord(bp, 0);
      CellsKept(m0, mem[..]);
      PutWord(bp + 4, 0);
      CellsKept(m0, mem[..]);
      SetNextPrevAlloc(bp, false);
    }

    method WriteFreeBlock(bp: int, size: int, prev_alloc: bool)
      requires MemOk() && HasRoom(mem[..], bp, size) && 16 <= size
      modifies mem
      ensures MemOk() && seg_free_lists[..] == old(seg_free_lists[..])
      ensures mem[..] == WriteFree(old(mem[..]), bp, size, prev_alloc)
    {
      RoomCells(mem[..], bp, size);
      RoomSize(mem[..], bp, size);
      WriteTaggedBlock(bp, size, Pack(size, prev_alloc, false));
    }

    // ----- lists

    method GetListIndex(size: int) returns (index: nat)
      ensures index == ListIndex(size)
    {
      index := 0;
      var bound := MIN_FREE_BLOCK_SIZE;
      while index < LISTLIMIT - 1 && size > bound
        invariant index < LISTLIMIT
        invariant ListIndexFrom(size, index, bound) == ListIndex(size)
        decreases LISTLIMIT - index
      {
        bound := 2 * bound;
        index := index + 1;
      }
    }

    /** Where `insert_block` stops: the first block of the class that is not smaller, and the one before. */
    method FindPlace(size: int, index: nat, ghost bp: int, ghost lo: int, ghost hi: int)
      returns (insert: int, search: int, ghost j: nat)
      requires MemOk() && SoundBut(H(), lo, hi) && NoneListedIn(L, lo, hi + 1)
      requires IsFree(B, bp) && B[bp].size == size && index == ListIndex(size)
      ensures var s := L[index];
        j <= |s| && insert == At(s, j - 1) && search == At(s, j) && Fits(B, s, j, bp)
    {
      hide AllWords, Tiled, Encoded;
      ghost var s := L[index];
      ListFacts(mem[..], seg_free_lists[..], B, L, index);
      MembersNotNull(B, end, s, index);
      insert, search, j := 0, seg_free_lists[index], 0;
      while search != 0
        invariant j <= |s| && insert == At(s, j - 1) && search == At(s, j)
        invariant forall k :: 0 <= k < j ==> SizeOrdered(B, s[k], bp)
        decreases |s| - j
      {
        assert j < |s| && s[j] in L[index] && IsMember(B, s[j], index);
        ReadHeader(H(), lo, hi, s[j]);
        var there := GetSize(search);
        if !(size > there) {
          break;
        }
        FreeCells(mem[..], B, end, s[j]);
        insert := search;
        search := GetWord(search + 4);
        assert LinkOk(mem[..], s, j);
        j := j + 1;
      }
      RestIsLarger(B, s, index, j, bp);
    }

    method LinkIn(bp: int, insert: int, search: int, index: nat)
      requires MemOk() && IsCell(mem[..], bp) && IsCell(mem[..], bp + 4) && IsWord(bp) && index < LISTLIMIT
      requires insert != 0 ==> IsCell(mem[..], insert + 4) && IsWord(insert)
      requires IsWord(search) && (search != 0 ==> IsCell(mem[..], search))
      modifies mem, seg_free_lists
      ensures MemOk() && mem[..] == WriteInsert(old(mem[..]), bp, insert, search)
      ensures seg_free_lists[..] == if insert == 0 then old(seg_free_lists[..])[index := bp] else old(seg_free_lists[..])
    {
      hide Get, Put, AllWords, IsCell;
      ghost var m0 := mem[..];
      if insert == 0 {
        PutWord(bp, 0);
        CellsKept(m0, mem[..]);
        PutWord(bp + 4, search);
        CellsKept(m0, mem[..]);
        if search != 0 {
          PutWord(search, bp);
        }
        seg_free_lists[index] := bp;
      } else {
        PutWord(insert + 4, bp);
        CellsKept(m0, mem[..]);
        PutWord(bp, insert);
        CellsKept(m0, mem[..]);
        PutWord(bp + 4, search);
        CellsKept(m0, mem[..]);
        if search != 0 {
          PutWord(search, bp);
        }
      }
    }

    method InsertBlock(bp: int, size: int, ghost lo: int, ghost hi: int)
      requires MemOk() && SoundBut(H(), lo, hi) && NoneListedIn(L, lo, hi + 1) && (bp < lo || hi < bp)
      requires IsFree(B, bp) && B[bp].size == size && NotListed(L, bp)
      modifies this`L, mem, seg_free_lists
      ensures MemOk() && Listing(old(H()), H(), bp, lo, hi)
    {
      ghost var h := H();
      var index := GetListIndex(size);
      var insert, search;
      ghost var j;
      insert, search, j := FindPlace(size, index, bp, lo, hi);
      InsertCells(h, index, j, bp);
      LinkIn(bp, insert, search, index);
      L := L[index := InsertAt(L[index], j, bp)];
      InsertDone(h, H(), lo, hi, j, bp);
    }

    method RemoveBlock(bp: int)
      requires MemOk() && Sound(H()) && IsFree(B, bp) && bp in L[ListIndex(B[bp].size)]
      modifies this`L, mem, seg_free_lists
      ensures MemOk() && Removal(old(H()), H(), bp)
    {
      hide AllWords, Tiled, Encoded, WriteRemove, Removal;
      ghost var h := H();
      FreeCells(mem[..], B, end, bp);
      ReadHeader(H(), 1, 0, bp);
      var size := GetSize(bp);
      var index := GetListIndex(size);
      ghost var s := L[index];
      ghost var j :| 0 <= j < |s| && s[j] == bp;
      RemoveCells(h, index, j);
      var pred := GetWord(bp);
      var succ := GetWord(bp + 4);
      LinkOut(pred, succ, index);
      L := L[index := RemoveAt(s, j)];
      RemoveDone(h, H(), j, bp);
    }

    method LinkOut(pred: int, succ: int, index: nat)
      requires MemOk() && index < LISTLIMIT && IsWord(pred) && IsWord(succ)
      requires pred != 0 ==> IsCell(mem[..], pred + 4)
      requires succ != 0 ==> IsCell(mem[..], succ)
      modifies mem, seg_free_lists
      ensures MemOk() && mem[..] == WriteRemove(old(mem[..]), pred, succ)
      ensures seg_free_lists[..] == if pred == 0 then old(seg_free_lists[..])[index := succ] else old(seg_free_lists[..])
    {
      hide Get, Put, AllWords, IsCell;
      ghost var m0 := mem[..];
      if pred != 0 {
        PutWord(pred + 4, succ);
        CellsKept(m0, mem[..]);
      } else {
        seg_free_lists[index] := succ;
      }
      if succ != 0 {
        PutWord(succ, pred);
      }
    }

    // ----- find_fit

    /** The scan of one list: the smallest block that fits, or NULL. */
    method BestOfList(asize: int, index: nat) returns (best: int)
      requires Whole() && index < LISTLIMIT
      ensures best == 0 ==> ClassTooSmall(B, L, asize, index)
      ensures best != 0 ==> best in L[index] && best in B && asize <= B[best].size
      ensures best != 0 ==> forall a :: a in L[index] && a in B && asize <= B[a].size ==> B[best].size <= B[a].size
    {
      ghost var s := L[index];
      ListFacts(mem[..], seg_free_lists[..], B, L, index);
      MembersNotNull(B, end, s, index);
      var bp := seg_free_lists[index];
      var best_size := NO_SIZE;
      best := 0;
      ghost var k := 0;
      while bp != 0
        invariant k <= |s| && bp == At(s, k)
        invariant BestSoFar(B, s, k, asize, best, best_size)
        decreases |s| - k
      {
        assert IsMember(B, s[k], index) && LinkOk(mem[..], s, k);
        FreeCells(mem[..], B, end, s[k]);
        ReadHeader(H(), 1, 0, s[k]);
        var block_size := GetSize(bp);
        hide BestSoFar, Ready, AllWords;
        BestSoFarStep(B, s, k, asize, best, best_size);
        if block_size >= asize {
          if block_size == asize {
            best := bp;
            return;
          }
          if block_size < best_size {
            best := bp;
            best_size := block_size;
          }
        }
        bp := GetWord(bp + 4);
        k := k + 1;
      }
    }

    method FindFit(asize: int) returns (bp: int)
      requires Whole()
      ensures BestFit(B, asize, bp)
    {
      var start_index := GetListIndex(asize);
      var index := start_index;
      var global_best := asize <= GLOBAL_BEST_LIMIT;
      while index < LISTLIMIT
        invariant start_index <= index <= LISTLIMIT
        invariant forall i :: start_index <= i < index ==> ClassTooSmall(B, L, asize, i)
      {
        if index == start_index || global_best {
          bp := BestOfList(asize, index);
          if bp != 0 {
            BestInClass(H(), asize, index, bp);
            return;
          }
        } else {
          HeadOfList(H(), asize, index);
          bp := seg_free_lists[index];
          if bp != 0 {
            BestInClass(H(), asize, index, bp);
            return;
          }
        }
        index := index + 1;
      }
      NothingFits(H(), asize);
      bp := 0;
    }

    // ----- coalesce

    /** `write_free_block`, with the tiling following suit. */
    method MakeFree(bp: int, size: int, prev_alloc: bool)
      requires MemOk() && HasRoom(mem[..], bp, size) && 16 <= size
      modifies this`B, mem
      ensures MemOk()
      ensures H() == AfterCut(old(H()), WriteFree(old(mem[..]), bp, size, prev_alloc), bp, bp + size, bp + size, false, false)
    {
      WriteFreeBlock(bp, size, prev_alloc);
      B := Cut(B, bp, bp + size, bp + size, false, false);
    }

    /** `write_free_block` and `insert_block` over a stretch whose blocks have left their lists. */
    method FreeMerged(bp: int, size: int, prev_alloc: bool)
      requires MemOk() && Mergeable(H(), bp, bp + size) && prev_alloc
      modifies this`B, this`L, mem, seg_free_lists
      ensures Whole() && IsFree(B, bp) && B[bp].size == size
      ensures LiveChange(old(H()), H(), 0, 0)
    {
      ghost var h := H();
      MergeRoom(h, bp, bp + size);
      NothingInEmpty(L);
      hide Mergeable, WriteFree, AfterCut, Ready, SoundBut, LiveChange, Listing, HasRoom, AllWords, NoneListedIn, NotListed;
      MakeFree(bp, size, prev_alloc);
      ghost var h1 := H();
      MergePlan(h, h1, bp, bp + size);
      InsertBlock(bp, size, 1, 0);
    }

    method Coalesce(bp: int) returns (r: int)
      requires MemOk() && InTransit(H(), bp)
      modifies this`B, this`L, mem, seg_free_lists
      ensures Whole()
      ensures LiveChange(old(H()), H(), 0, 0)
      ensures IsFree(B, r) && r <= bp && bp + old(B[bp].size) <= r + B[r].size
    {
      ghost var h := H();
      TransitFacts(h, bp);
      var header := GetWord(bp - 4);
      var prev_alloc := PrevBit(header);
      var size := SizeOf(header);
      var nextbp := bp + size;
      var next_header := GetWord(nextbp - 4);
      var next_alloc := AllocBit(next_header);
      if prev_alloc && next_alloc {
        InsertBlock(bp, size, 1, 0);
        TransitReady(h, H(), bp);
        return bp;
      }
      if prev_alloc && !next_alloc {
        CoalesceNext(bp, size, nextbp);
        return bp;
      }
      ghost var p := PrevFacts(h, bp);
      var prev_size := GetSize(bp - 4);
      r := bp - prev_size;
      if !prev_alloc && next_alloc {
        CoalescePrev(bp, size, r);
      } else {
        CoalesceBoth(bp, size, r, nextbp);
      }
    }

    method CoalesceNext(bp: int, size: int, nextbp: int)
      requires MemOk() && InTransit(H(), bp) && B[bp].prevAlloc && IsFree(B, nextbp)
      requires size == B[bp].size && nextbp == bp + size
      modifies this`B, this`L, mem, seg_free_lists
      ensures Whole() && LiveChange(old(H()), H(), 0, 0)
      ensures IsFree(B, bp) && size <= B[bp].size
    {
      ghost var h := H();
      NextFacts(h, bp);
      RemoveBlock(nextbp);
      ghost var h1 := H();
      ClearedNext(h, h1, bp);
      ReadHeader(h1, 1, 0, nextbp);
      var next_size := GetSize(nextbp);
      FreeMerged(bp, size + next_size, true);
      LiveChangeThenQuiet(h, h1, H(), 0, 0);
    }

    method CoalescePrev(bp: int, size: int, prevbp: int)
      requires MemOk() && InTransit(H(), bp) && bp + size in B && B[bp + size].alloc && size == B[bp].size
      requires IsFree(B, prevbp) && PROLOGUE < prevbp && prevbp + B[prevbp].size == bp
      requires prevbp in L[ListIndex(B[prevbp].size)] && B[prevbp].prevAlloc && 16 <= B[prevbp].size
      modifies this`B, this`L, mem, seg_free_lists
      ensures Whole() && LiveChange(old(H()), H(), 0, 0)
      ensures IsFree(B, prevbp) && B[prevbp].size == bp + size - prevbp
    {
      ghost var h := H();
      RemoveBlock(prevbp);
      ghost var h1 := H();
      ClearedPrev(h, h1, bp, prevbp);
      ReadHeader(h1, 1, 0, prevbp);
      var prev_size := GetSize(prevbp);
      var w := GetWord(prevbp - 4);
      FreeMerged(prevbp, size + prev_size, PrevBit(w));
      LiveChangeThenQuiet(h, h1, H(), 0, 0);
    }

    method CoalesceBoth(bp: int, size: int, prevbp: int, nextbp: int)
      requires MemOk() && InTransit(H(), bp) && IsFree(B, nextbp) && size == B[bp].size && nextbp == bp + size
      requires IsFree(B, prevbp) && PROLOGUE < prevbp && prevbp + B[prevbp].size == bp
      requires prevbp in L[ListIndex(B[prevbp].size)] && B[prevbp].prevAlloc && 16 <= B[prevbp].size
      modifies this`B, this`L, mem, seg_free_lists
      ensures Whole() && LiveChange(old(H()), H(), 0, 0)
      ensures IsFree(B, prevbp) && B[prevbp].size >= bp + size - prevbp
    {
      ghost var h := H();
      NextFacts(h, bp);
      RemoveBlock(prevbp);
      ghost var h1 := H();
      assert nextbp in L[ListIndex(B[nextbp].size)];
      RemoveBlock(nextbp);
      ghost var h2 := H();
      LiveChangeThenQuiet(h, h1, h2, 0, 0);
      ClearedBoth(h, h1, h2, bp, prevbp);
      ReadHeader(h2, 1, 0, prevbp);
      ReadHeader(h2, 1, 0, nextbp);
      var prev_size := GetSize(prevbp);
      var next_size := GetSize(nextbp);
      var w := GetWord(prevbp - 4);
      FreeMerged(prevbp, size + prev_size + next_size, PrevBit(w));
      LiveChangeThenQuiet(h, h2, H(), 0, 0);
    }

    // ----- growing the heap

    /** `mem_sbrk`: the old break, or -1 when the request is negative or exceeds the heap. */
    method Sbrk(incr: int) returns (p: int)
      requires MemOk()
      modifies this`mem_brk
      ensures MemOk()
      ensures if incr < 0 || old(mem_brk) + incr > 4 * mem.Length then p == -1 && mem_brk == old(mem_brk)
              else p == old(mem_brk) && mem_brk == old(mem_brk) + incr
    {
      if incr < 0 || mem_brk + incr > 4 * mem.Length {
        return -1;
      }
      p := mem_brk;
      mem_brk := mem_brk + incr;
    }

    method ExtendHeap(words: int) returns (r: int)
      requires Valid() && 0 <= words && ExtendBytes(words) < 0x1_0000_0000
      modifies this, mem, seg_free_lists
      ensures Valid()
      ensures r == 0 <==> old(mem_brk) + ExtendBytes(words) > 4 * mem.Length
      ensures r == 0 ==> H() == old(H())
      ensures r != 0 ==> IsFree(B, r) && ExtendBytes(words) <= B[r].size && LiveChange(old(H()), H(), 0, 0)
      ensures r != 0 ==> end == old(end) + ExtendBytes(words)
    {
      ghost var h := H();
      var size := ExtendBytes(words);
      var bp := Sbrk(ToInt(size));
      if bp == -1 {
        return 0;
      }
      EpilogueFacts(h, size);
      r := AbsorbGrowth(bp, size);
    }

    method AbsorbGrowth(bp: int, size: int) returns (r: int)
      requires Whole() && bp == end && 16 <= size && size % 8 == 0 && mem_brk == end + size
      requires HasRoom(mem[..], bp, size) && IsCell(mem[..], bp - 4) && PrevBit(Get(mem[..], bp - 4)) == PrevOf(B, bp)
      modifies this`B, this`L, this`end, mem, seg_free_lists
      ensures Whole() && end == mem_brk && IsFree(B, r) && size <= B[r].size && LiveChange(old(H()), H(), 0, 0) && r != 0
    {
      ghost var h := H();
      hide Ready, InTransit, LiveChange, WriteFree, WriteEpilogue, AfterGrowth, HasRoom, AllWords, PrevOf, Get, IsCell;
      MakeGrown(bp, size);
      ghost var h1 := H();
      GrowFreePlan(h, h1, bp + size);
      r := Coalesce(bp);
      LiveChangeThenQuiet(h, h1, H(), 0, 0);
      FreeNotNull(H(), r);
    }

    /** The new memory as a free block under the old epilogue's header, and a new epilogue. */
    method MakeGrown(bp: int, size: int)
      requires MemOk() && bp == end && 16 <= size && mem_brk == end + size
      requires HasRoom(mem[..], bp, size) && IsCell(mem[..], bp - 4) && PrevBit(Get(mem[..], bp - 4)) == PrevOf(B, bp)
      modifies this`B, this`end, mem
      ensures MemOk() && end == mem_brk
      ensures var h := old(H());
        H() == AfterGrowth(h, bp + size).(m := WriteEpilogue(WriteFree(h.m, bp, size, PrevOf(h.B, bp)), bp + size, false))
    {
      RoomCells(mem[..], bp, size);
      var w := GetWord(bp - 4);
      WriteGrown(bp, size, PrevBit(w));
      B := Grown(B, bp, bp + size);
      end := bp + size;
    }

    method WriteGrown(bp: int, size: int, prev_alloc: bool)
      requires MemOk() && HasRoom(mem[..], bp, size) && 16 <= size && IsCell(mem[..], bp + size - 4)
      modifies mem
      ensures MemOk() && seg_free_lists[..] == old(seg_free_lists[..])
      ensures mem[..] == WriteEpilogue(WriteFree(old(mem[..]), bp, size, prev_alloc), bp + size, false)
    {
      hide Get, WriteFree, WriteEpilogue, IsCell, HasRoom;
      ghost var m := mem[..];
      WriteFreeBlock(bp, size, prev_alloc);
      CellsKept(m, mem[..]);
      WriteNewEpilogue(bp + size, false);
    }

    method WriteNewEpilogue(top: int, prev_alloc: bool)
      requires MemOk() && IsCell(mem[..], top - 4)
      modifies mem
      ensures MemOk() && seg_free_lists[..] == old(seg_free_lists[..])
      ensures mem[..] == WriteEpilogue(old(mem[..]), top, prev_alloc)
    {
      PutWord(top - 4, Pack(0, prev_alloc, true));
    }

    // ----- taking a stretch

    method MakeAlloc(bp: int, size: int, prev_alloc: bool)
      requires MemOk() && HasRoom(mem[..], bp, size)
      modifies this`B, mem
      ensures MemOk()
      ensures H() == AfterCut(old(H()), WriteAlloc(old(mem[..]), bp, size, prev_alloc), bp, bp + size, bp + size, true, true)
    {
      WriteAllocBlock(bp, size, prev_alloc);
      B := Cut(B, bp, bp + size, bp + size, true, true);
    }

    method MakeSplit(bp: int, asize: int, remain: int, prev_alloc: bool) returns (nextbp: int)
      requires MemOk() && SplitRoom(mem[..], bp, asize, remain, prev_alloc) && 16 <= remain
      modifies this`B, mem
      ensures MemOk() && nextbp == bp + asize
      ensures H() == AfterCut(old(H()), WriteSplit(old(mem[..]), bp, bp + asize, bp + asize + remain, prev_alloc),
                              bp, bp + asize, bp + asize + remain, true, false)
    {
      hide HasRoom, WriteAlloc, WriteFree, Get, IsCell, SizeOf;
      WriteAllocBlock(bp, asize, prev_alloc);
      var size := GetSize(bp);
      nextbp := bp + size;
      WriteFreeBlock(nextbp, remain, true);
      B := Cut(B, bp, bp + asize, bp + asize + remain, true, false);
    }

    /** Takes `asize` bytes from the front of a stretch of `total`; a remainder that can stand alone
        goes to its list. */
    method CarveFront(bp: int, asize: int, total: int, prev_alloc: bool, ghost gone: int)
      requires MemOk() && Takeable(H(), bp, bp + total, gone) && prev_alloc == PrevOf(B, bp)
      requires bp + total in B && B[bp + total].alloc && asize % 8 == 0 && 8 <= asize <= total
      modifies this`B, this`L, mem, seg_free_lists
      ensures Whole() && Carved(old(H()), H(), gone, bp, Handed(asize, total))
    {
      ghost var h := H();
      TakeableFacts(h, bp, bp + total, gone);
      var remain := total - asize;
      if remain >= MIN_FREE_BLOCK_SIZE {
        SplitHasRoom(mem[..], bp, asize, remain, prev_alloc);
        CarveSplit(bp, asize, remain, prev_alloc, gone);
      } else {
        hide Takeable, Ready, Carved;
        CarveAll(bp, total, prev_alloc, gone);
      }
    }

    /** The whole stretch as one allocated block. */
    method CarveAll(bp: int, total: int, prev_alloc: bool, ghost gone: int)
      requires MemOk() && Takeable(H(), bp, bp + total, gone) && prev_alloc == PrevOf(B, bp)
      modifies this`B, mem
      ensures Whole() && Carved(old(H()), H(), gone, bp, total)
    {
      ghost var h := H();
      TakeableFacts(h, bp, bp + total, gone);
      hide Takeable, Ready, Carved, WriteAlloc, AfterCut, HasRoom;
      MakeAlloc(bp, total, prev_alloc);
      TakePlan(h, H(), bp, bp + total, gone);
    }

    method CarveSplit(bp: int, asize: int, remain: int, prev_alloc: bool, ghost gone: int)
      requires MemOk() && Takeable(H(), bp, bp + asize + remain, gone) && prev_alloc == PrevOf(B, bp)
      requires bp + asize + remain in B && B[bp + asize + remain].alloc && (bp + asize) % 8 == 0 && 8 <= asize && 16 <= remain
      requires SplitRoom(mem[..], bp, asize, remain, prev_alloc)
      modifies this`B, this`L, mem, seg_free_lists
      ensures Whole() && Carved(old(H()), H(), gone, bp, asize)
    {
      ghost var h := H();
      NothingInEmpty(L);
      hide Takeable, Ready, Carved, WriteSplit, AfterCut, Listing, NoneListedIn, SplitRoom, PrevOf;
      var nextbp := MakeSplit(bp, asize, remain, prev_alloc);
      CarvePlan(h, H(), bp, bp + asize, bp + asize + remain, gone);
      InsertBlock(nextbp, remain, 1, 0);
    }

    // ----- place

    method Place(bp: int, asize: int) returns (r: int)
      requires Whole() && IsFree(B, bp) && asize % 8 == 0 && 8 <= asize <= B[bp].size
      modifies this`B, this`L, mem, seg_free_lists
      ensures Whole() && Placed(old(H()), H(), r, Handed(asize, old(B[bp].size)))
      ensures r == PlaceOf(bp, asize, old(B[bp].size)) && RestIsListed(H(), bp, r, asize, old(B[bp].size))
    {
      ghost var h := H();
      FreeCells(mem[..], B, end, bp);
      ReadHeader(h, 1, 0, bp);
      TidyFacts(h, bp);
      TileFacts(B, end, bp);
      var csize := GetSize(bp);
      var w := GetWord(bp - 4);
      var prev_alloc := PrevBit(w);
      RemoveBlock(bp);
      ghost var h1 := H();
      RemovedTakeable(h, h1, bp);
      r := PlaceRemoved(bp, asize, csize, prev_alloc);
      GainedAfter(h, h1, H(), r, Handed(asize, csize));
      PlacedInside(h, H(), bp, r, Handed(asize, csize));
      RestListed(h, H(), bp, r, asize);
    }

    method PlaceRemoved(bp: int, asize: int, csize: int, prev_alloc: bool) returns (r: int)
      requires MemOk() && Sound(H()) && Takeable(H(), bp, bp + csize, 0) && IsFree(B, bp) && B[bp].prevAlloc && prev_alloc
      requires B[bp].size == csize && bp + csize in B && B[bp + csize].alloc
      requires asize % 8 == 0 && csize % 8 == 0 && 8 <= asize <= csize
      modifies this`B, this`L, mem, seg_free_lists
      ensures Whole() && Gained(old(H()), H(), r, Handed(asize, csize)) && r == PlaceOf(bp, asize, csize)
    {
      ghost var h := H();
      var remain := csize - asize;
      if remain >= MIN_FREE_BLOCK_SIZE && remain >= SPLIT_THRESHOLD && asize >= SPLIT_THRESHOLD {
        r := PlaceAtEnd(bp, asize, remain, prev_alloc);
      } else {
        hide Takeable, Ready, LiveChange, Sound;
        CarveFront(bp, asize, csize, prev_alloc, 0);
        r := bp;
      }
    }

    /** A large remainder stays in front, and the allocated block goes to the end. */
    method PlaceAtEnd(bp: int, asize: int, remain: int, prev_alloc: bool) returns (nextbp: int)
      requires MemOk() && Sound(H()) && Takeable(H(), bp, bp + remain + asize, 0) && IsFree(B, bp) && B[bp].prevAlloc && prev_alloc
      requires B[bp].size == remain + asize && bp + remain + asize in B && B[bp + remain + asize].alloc
      requires asize % 8 == 0 && remain % 8 == 0 && SPLIT_THRESHOLD <= asize && SPLIT_THRESHOLD <= remain
      modifies this`B, this`L, mem, seg_free_lists
      ensures Whole() && nextbp == bp + remain && Gained(old(H()), H(), nextbp, asize)
    {
      ghost var h := H();
      TakeableFacts(h, bp, bp + remain + asize, 0);
      RoomSplit(mem[..], bp, bp + remain, bp + remain + asize);
      ShortenFree(bp, asize, remain, prev_alloc);
      ghost var h2 := H();
      HeaderAfterHole(h2, bp, bp + remain);
      var size := GetSize(bp);
      nextbp := bp + size;
      WillGain(h, h2, nextbp, asize);
      hide Ready, Takeable, LiveChange, Carved, Sound, IsCell, SoundBut, Gained;
      CarveAll(nextbp, asize, false, 0);
    }

    /** The free block cut down to `remain` bytes and listed; the header behind it is still to come. */
    method ShortenFree(bp: int, ghost asize: int, remain: int, prev_alloc: bool)
      requires MemOk() && Sound(H()) && Takeable(H(), bp, bp + remain + asize, 0) && IsFree(B, bp) && B[bp].prevAlloc && prev_alloc
      requires B[bp].size == remain + asize && bp + remain + asize in B && B[bp + remain + asize].alloc
      requires (bp + remain) % 8 == 0 && 16 <= asize && 16 <= remain && HasRoom(mem[..], bp, remain)
      modifies this`B, this`L, mem, seg_free_lists
      ensures MemOk() && Takeable(H(), bp + remain, bp + remain + asize, 0) && !PrevOf(B, bp + remain)
      ensures LiveChange(old(H()), H(), 0, 0)
      ensures SoundBut(H(), bp + remain, bp + remain) && bp in B && B[bp].size == remain
    {
      ghost var h := H();
      ghost var mid, hi := bp + remain, bp + remain + asize;
      hide Takeable, LiveChange, SoundBut, HasRoom, NoneListedIn, NotListed, PrevOf, Listing, AllWords, Sound, Shortened, IsFree;
      CutFront(bp, asize, remain, prev_alloc);
      ghost var h1 := H();
      InsertBlock(bp, remain, mid, mid);
      ShortenedListed(h, h1, H(), bp, mid, hi);
    }

    /** The block cut down and written anew; it is still to be listed. */
    method CutFront(bp: int, ghost asize: int, remain: int, prev_alloc: bool)
      requires MemOk() && Sound(H()) && Takeable(H(), bp, bp + remain + asize, 0) && IsFree(B, bp) && B[bp].prevAlloc && prev_alloc
      requires B[bp].size == remain + asize && bp + remain + asize in B && B[bp + remain + asize].alloc
      requires (bp + remain) % 8 == 0 && 16 <= asize && 16 <= remain && HasRoom(mem[..], bp, remain)
      modifies this`B, mem
      ensures MemOk() && SoundBut(H(), bp + remain, bp + remain) && IsFree(B, bp) && B[bp].size == remain && NotListed(L, bp)
      ensures NoneListedIn(L, bp + remain, bp + remain + 1) && Shortened(old(H()), H(), bp, bp + remain, bp + remain + asize)
    {
      ghost var h := H();
      assert PrevOf(B, bp);
      hide Takeable, LiveChange, SoundBut, HasRoom, WriteFree, NoneListedIn, NotListed, PrevOf, Listing, AllWords, AfterCut, Sound;
      CutShort(bp, asize, remain, prev_alloc);
      EndPlan(h, H(), bp, bp + remain, bp + remain + asize);
    }

    method CutShort(bp: int, ghost asize: int, remain: int, prev_alloc: bool)
      requires MemOk() && HasRoom(mem[..], bp, remain) && 16 <= remain
      modifies this`B, mem
      ensures MemOk()
      ensures H() == AfterCut(old(H()), WriteFree(old(mem[..]), bp, remain, prev_alloc), bp, bp + remain, bp + remain + asize, false, false)
    {
      hide HasRoom, WriteFree, Cut;
      WriteFreeBlock(bp, remain, prev_alloc);
      B := Cut(B, bp, bp + remain, bp + remain + asize, false, false);
    }

    // ----- malloc and free

    method Malloc(size: int) returns (r: int)
      requires Valid() && IsRequest(size)
      modifies this, mem, seg_free_lists
      ensures Valid()
      ensures size == 0 ==> r == 0
      ensures r == 0 ==> H() == old(H())
      ensures size > 0 ==> (r == 0 <==> NoRoom(old(H()), AdjustBlockSize(size), 4 * mem.Length))
      ensures r != 0 ==> LiveChange(old(H()), H(), 0, r) && IsLive(H(), r) && !IsLive(old(H()), r)
      ensures r != 0 ==> r % 8 == 0 && AdjustBlockSize(size) <= B[r].size < AdjustBlockSize(size) + MIN_FREE_BLOCK_SIZE
      ensures r != 0 ==> Served(old(H()), H(), r, AdjustBlockSize(size)) && Accounted(old(H()), H(), 0, r)
    {
      ghost var h := H();
      if size == 0 {
        return 0;
      }
      var asize := AdjustBlockSize(size);
      var bp := FindFit(asize);
      if bp != 0 {
        r := Place(bp, asize);
        ServedFrom(h, H(), bp, r, asize);
        BytesAfter(h, H(), 0, r);
        return;
      }
      r := MallocGrowing(asize);
      if r != 0 { BytesAfter(h, H(), 0, r); }
    }

    method MallocGrowing(asize: int) returns (r: int)
      requires Valid() && asize % 8 == 0 && 8 <= asize < 0x1_0000_0000
      modifies this, mem, seg_free_lists
      ensures Valid()
      ensures r == 0 <==> old(mem_brk) + ExtendSize(asize) > 4 * mem.Length
      ensures r == 0 ==> H() == old(H())
      ensures r != 0 ==> LiveChange(old(H()), H(), 0, r) && IsLive(H(), r) && !IsLive(old(H()), r)
      ensures r != 0 ==> r % 8 == 0 && asize <= B[r].size < asize + MIN_FREE_BLOCK_SIZE && end == old(end) + ExtendSize(asize)
    {
      ghost var h := H();
      var extendsize := ExtendSize(asize);
      assert ExtendBytes(extendsize / WSIZE) == extendsize;
      var bp := ExtendHeap(extendsize / WSIZE);
      if bp == 0 {
        return 0;
      }
      ghost var h1 := H();
      r := Place(bp, asize);
      LivePlaced(h, h1, H(), r, Handed(asize, h1.B[bp].size));
    }

    /** The caller gives back `ptr`; every other block is untouched.  The block must have had room
        for the links, which is so whenever five bytes or more were asked for. */
    method Free(ptr: int)
      requires Valid() && (ptr != 0 ==> IsLive(H(), ptr) && 16 <= B[ptr].size)
      modifies this`B, this`L, mem, seg_free_lists
      ensures Valid()
      ensures if ptr == 0 then H() == old(H()) else LiveChange(old(H()), H(), ptr, 0) && Accounted(old(H()), H(), ptr, 0)
    {
      if ptr == 0 {
        return;
      }
      ghost var h := H();
      LiveTakeable(H(), ptr);
      ReadHeader(H(), 1, 0, ptr);
      var size := GetSize(ptr);
      var w := GetWord(ptr - 4);
      FreeTaken(ptr, size, PrevBit(w));
      BytesAfter(h, H(), ptr, 0);
    }

    method FreeTaken(ptr: int, size: int, prev_alloc: bool)
      requires MemOk() && Takeable(H(), ptr, ptr + size, ptr) && 16 <= size && prev_alloc == PrevOf(B, ptr)
      modifies this`B, this`L, mem, seg_free_lists
      ensures Whole() && LiveChange(old(H()), H(), ptr, 0)
    {
      hide Ready, Takeable, LiveChange, InTransit, PrevOf, AllWords, FreesQuietly;
      ghost var h := H();
      PutInTransit(ptr, size, prev_alloc);
      ghost var h1 := H();
      var merged := Coalesce(ptr);
      QuietlyFreed(h, h1, H(), ptr);
    }

    /** The stretch as a free block that is on no list yet. */
    method PutInTransit(bp: int, size: int, prev_alloc: bool)
      requires MemOk() && Takeable(H(), bp, bp + size, bp) && 16 <= size && prev_alloc == PrevOf(B, bp)
      modifies this`B, mem
      ensures MemOk() && InTransit(H(), bp) && FreesQuietly(old(H()), H(), bp)
    {
      ghost var h := H();
      hide Ready, Takeable, LiveChange, WriteFree, AfterCut, HasRoom, InTransit, PrevOf, AllWords;
      TakeableRoom(h, bp, bp + size, bp);
      MakeFree(bp, size, prev_alloc);
      FreeThenQuiet(h, H(), bp, bp + size, bp);
    }

    // ----- moving contents

    /** `memmove` for a destination in front of the source, and `memcpy` for disjoint ranges:
        whole words first, then the low bytes of the last one. */
    method MoveBytes(dst: int, src: int, n: int)
      requires MemOk() && 0 <= n && 0 <= dst && 0 <= src && dst % 4 == 0 && src % 4 == 0
      requires dst + n <= 4 * mem.Length && src + n <= 4 * mem.Length
      requires dst <= src || src + n <= dst
      modifies mem
      ensures MemOk() && seg_free_lists[..] == old(seg_free_lists[..])
      ensures SameOutside(old(mem[..]), mem[..], dst, dst + (n + 3) / 4 * 4)
      ensures BytesMoved(old(mem[..]), src, mem[..], dst, n)
    {
      ghost var m := mem[..];
      MoveWords(dst, src, n);
      ghost var m1 := mem[..];
      if n % 4 != 0 {
        TailInside(m, m1, dst, src, n);
        MoveTail(dst + 4 * (n / 4), src + 4 * (n / 4), n % 4);
      }
      MovedBytes(m, m1, mem[..], dst, src, n);
    }

    method MoveTail(dst: int, src: int, k: int)
      requires MemOk() && IsCell(mem[..], dst) && IsCell(mem[..], src) && 0 < k < 4
      modifies mem
      ensures MemOk() && seg_free_lists[..] == old(seg_free_lists[..])
      ensures var m := old(mem[..]); mem[..] == Put(m, dst, Blend(Get(m, src), Get(m, dst), k))
    {
      var w := GetWord(src);
      var old_word := GetWord(dst);
      BlendIsWord(w, old_word, k);
      PutWord(dst, Blend(w, old_word, k));
    }

    method MoveWords(dst: int, src: int, n: int)
      requires MemOk() && 0 <= n && 0 <= dst && 0 <= src && dst % 4 == 0 && src % 4 == 0
      requires dst + n <= 4 * mem.Length && src + n <= 4 * mem.Length
      requires dst <= src || src + n <= dst
      modifies mem
      ensures MemOk() && seg_free_lists[..] == old(seg_free_lists[..])
      ensures SameOutside(old(mem[..]), mem[..], dst, dst + 4 * (n / 4)) && WordsMoved(old(mem[..]), src, mem[..], dst, n / 4)
    {
      ghost var m := mem[..];
      var k := 0;
      while k < n / 4
        invariant 0 <= k <= n / 4
        invariant MemOk() && seg_free_lists[..] == old(seg_free_lists[..])
        invariant SameOutside(m, mem[..], dst, dst + 4 * k)
        invariant WordsMoved(m, src, mem[..], dst, k)
      {
        k := MoveWord(m, dst, src, n, k);
      }
    }

    method MoveWord(ghost m: Memory, dst: int, src: int, ghost n: int, k: int) returns (k': int)
      requires MemOk() && 0 <= k < n / 4 && 0 <= dst && 0 <= src && dst % 4 == 0 && src % 4 == 0
      requires dst + n <= 4 * mem.Length && src + n <= 4 * mem.Length
      requires dst <= src || src + n <= dst
      requires SameOutside(m, mem[..], dst, dst + 4 * k) && WordsMoved(m, src, mem[..], dst, k)
      modifies mem
      ensures MemOk() && seg_free_lists[..] == old(seg_free_lists[..]) && k' == k + 1
      ensures SameOutside(m, mem[..], dst, dst + 4 * k') && WordsMoved(m, src, mem[..], dst, k')
    {
      ghost var m1 := mem[..];
      var w := GetWord(src + 4 * k);
      PutWord(dst + 4 * k, w);
      k' := k + 1;
      MovedOneMore(m, m1, mem[..], dst, src, k);
    }

    // ----- realloc

    /** The block rounded-up `size` needs, for a caller's block or for NULL.  A block that may have to be
        given back must have had room for the links. */
    method Realloc(ptr: int, size: int) returns (r: int)
      requires Valid() && IsRequest(size)
      requires ptr != 0 ==> IsLive(H(), ptr) && 16 <= B[ptr].size
      modifies this, mem, seg_free_lists
      ensures Valid()
      ensures ptr == 0 && r == 0 ==> H() == old(H())
      ensures ptr == 0 && r != 0 ==> LiveChange(old(H()), H(), 0, r) && IsLive(H(), r) && !IsLive(old(H()), r)
      ensures ptr == 0 && r != 0 ==> r % 8 == 0 && Served(old(H()), H(), r, AdjustBlockSize(size))
      ensures ptr == 0 && r != 0 ==> AdjustBlockSize(size) <= B[r].size < AdjustBlockSize(size) + MIN_FREE_BLOCK_SIZE
      ensures ptr != 0 && size == 0 ==> r == 0 && LiveChange(old(H()), H(), ptr, 0) && end == old(end)
      ensures ptr == 0 && size > 0 ==> (r == 0 <==> NoRoom(old(H()), AdjustBlockSize(size), 4 * mem.Length))
      ensures ptr != 0 && size > 0 && r == 0 ==> H() == old(H())
      ensures ptr != 0 && size > 0 ==> (r == 0 <==> CannotResize(old(H()), ptr, AdjustBlockSize(size), 4 * mem.Length))
      ensures ptr != 0 && size > 0 && r != 0 ==> Resized(old(H()), H(), ptr, r, size, AdjustBlockSize(size))
      ensures ptr != 0 && size > 0 && r != 0 ==> end == old(end) + GrowthFor(old(H()), ptr, AdjustBlockSize(size), 4 * mem.Length)
      ensures ptr != 0 && size > 0 && r != 0 ==> MovesOnlyIfMust(old(H()), ptr, r, AdjustBlockSize(size), 4 * mem.Length)
      ensures r != 0 || (ptr != 0 && size == 0) ==> Accounted(old(H()), H(), ptr, r)
    {
      if ptr == 0 {
        r := Malloc(size);
        return;
      }
      if size == 0 {
        Free(ptr);
        return 0;
      }
      ghost var h := H();
      var asize := AdjustBlockSize(size);
      ReadHeader(H(), 1, 0, ptr);
      var oldsize := GetSize(ptr);
      if oldsize >= asize {
        ReallocShrink(ptr, size, asize, oldsize);
        BytesAfter(h, H(), ptr, ptr);
        return ptr;
      }
      r := ReallocGrow(ptr, size, asize, oldsize);
      if r != 0 { BytesAfter(h, H(), ptr, r); }
    }

    /** Case 1: the block is big enough; a remainder that can stand alone is split off and coalesced. */
    method ReallocShrink(ptr: int, ghost size: int, asize: int, oldsize: int)
      requires Whole() && IsLive(H(), ptr) && B[ptr].size == oldsize >= asize >= 8 && asize % 8 == 0 && 0 <= size <= asize - 4
      modifies this`B, this`L, mem, seg_free_lists
      ensures Whole() && Resized(old(H()), H(), ptr, ptr, size, asize)
    {
      ghost var h := H();
      var remain := oldsize - asize;
      if remain >= MIN_FREE_BLOCK_SIZE {
        LiveTakeable(h, ptr);
        ReadHeader(h, 1, 0, ptr);
        var w := GetWord(ptr - 4);
        SplitAndCoalesce(ptr, asize, remain, PrevBit(w), ptr);
        CarvedInPlace(h, H(), ptr, size, asize, asize);
      } else {
        NothingMoved(h, ptr, size, asize);
      }
    }

    method SplitAndCoalesce(bp: int, asize: int, remain: int, prev_alloc: bool, ghost gone: int)
      requires MemOk() && Takeable(H(), bp, bp + asize + remain, gone) && prev_alloc == PrevOf(B, bp)
      requires asize % 8 == 0 && 8 <= asize && 16 <= remain
      modifies this`B, this`L, mem, seg_free_lists
      ensures Whole() && Carved(old(H()), H(), gone, bp, asize)
    {
      TakeableFacts(H(), bp, bp + asize + remain, gone);
      SplitHasRoom(mem[..], bp, asize, remain, prev_alloc);
      SplitThenCoalesce(bp, asize, remain, prev_alloc, gone);
    }

    method SplitThenCoalesce(bp: int, asize: int, remain: int, prev_alloc: bool, ghost gone: int)
      requires MemOk() && Takeable(H(), bp, bp + asize + remain, gone) && prev_alloc == PrevOf(B, bp)
      requires (bp + asize) % 8 == 0 && 8 <= asize && 16 <= remain && SplitRoom(mem[..], bp, asize, remain, prev_alloc)
      modifies this`B, this`L, mem, seg_free_lists
      ensures Whole() && Carved(old(H()), H(), gone, bp, asize)
    {
      ghost var h := H();
      hide Takeable, Ready, Carved, InTransit, WriteSplit, AfterCut, SplitRoom, PrevOf, LiveChange;
      var nextbp := MakeSplit(bp, asize, remain, prev_alloc);
      SplitThenQuiet(h, H(), bp, bp + asize, bp + asize + remain, gone);
      var merged := Coalesce(nextbp);
    }

    /** Cases 2 to 6: the block is too small. */
    method ReallocGrow(ptr: int, size: int, asize: int, oldsize: int) returns (r: int)
      requires Valid() && IsLive(H(), ptr) && 16 <= B[ptr].size == oldsize < asize
      requires 0 < size && IsRequest(size) && asize == AdjustBlockSize(size)
      modifies this, mem, seg_free_lists
      ensures Valid()
      ensures r == 0 ==> H() == old(H())
      ensures r == 0 <==> CannotResize(old(H()), ptr, asize, 4 * mem.Length)
      ensures r != 0 ==> Resized(old(H()), H(), ptr, r, size, asize)
      ensures r != 0 ==> end == old(end) + GrowthFor(old(H()), ptr, asize, 4 * mem.Length)
      ensures r != 0 ==> MovesOnlyIfMust(old(H()), ptr, r, asize, 4 * mem.Length)
    {
      ghost var h := H();
      hide Ready, Resized, GrowsInPlace, GrowsDown, NoRoom, GrowthFor, BestFit;
      var done := ReallocInPlace(ptr, size, asize, oldsize);
      if done {
        return ptr;
      }
      GrowthElsewhere(h, ptr, asize, 4 * mem.Length);
      r := ReallocElsewhere(ptr, size, asize, oldsize);
    }

    /** Cases 2, 3 and 4. */
    method ReallocInPlace(ptr: int, ghost size: int, asize: int, oldsize: int) returns (done: bool)
      requires Valid() && IsLive(H(), ptr) && 16 <= B[ptr].size == oldsize < asize
      requires 0 < size && IsRequest(size) && asize == AdjustBlockSize(size)
      modifies this, mem, seg_free_lists
      ensures Valid()
      ensures done <==> GrowsInPlace(old(H()), ptr, asize, 4 * mem.Length)
      ensures done ==> end == old(end) + GrowthFor(old(H()), ptr, asize, 4 * mem.Length)
      ensures if done then Resized(old(H()), H(), ptr, ptr, size, asize) else H() == old(H())
    {
      ghost var h := H();
      LiveFacts(h, ptr);
      hide Ready, Resized;
      var nextbp := ptr + oldsize;
      var next_header := GetWord(nextbp - 4);
      var nextsize := SizeOf(next_header);
      if !AllocBit(next_header) {
        if oldsize + nextsize >= asize {
          ReallocIntoNext(ptr, size, asize, oldsize, nextsize);
          return true;
        }
      }
      if nextsize == 0 {
        done := ReallocAtEnd(ptr, size, asize, oldsize);
        if done {
          return;
        }
      }
      done := false;
      if !AllocBit(next_header) {
        done := ReallocOverNext(ptr, size, asize, oldsize, nextsize);
      }
    }

    /** The test for case 4. */
    method ReallocOverNext(ptr: int, ghost size: int, asize: int, oldsize: int, nextsize: int) returns (done: bool)
      requires Valid() && IsLive(H(), ptr) && B[ptr].size == oldsize && IsFree(B, ptr + oldsize) && B[ptr + oldsize].size == nextsize
      requires oldsize + nextsize < asize < 0x1_0000_0000 && asize % 8 == 0 && oldsize % 8 == 0 && 0 <= size <= asize - 4 && 16 <= oldsize
      modifies this, mem, seg_free_lists
      ensures Valid()
      ensures done <==> ptr + oldsize + nextsize == old(end) && old(end) + GrowBytes(asize - oldsize - nextsize) <= 4 * mem.Length
      ensures done ==> end == old(end) + GrowBytes(asize - oldsize - nextsize)
      ensures if done then Resized(old(H()), H(), ptr, ptr, size, asize) else H() == old(H())
    {
      FreeNextFacts(H(), ptr);
      hide Ready, Resized;
      done := false;
      var after_size := GetSize(ptr + oldsize + nextsize);
      if after_size == 0 {
        done := ReallocNextAndEnd(ptr, size, asize, oldsize, nextsize);
      }
    }

    /** Cases 5 and 6. */
    method ReallocElsewhere(ptr: int, size: int, asize: int, oldsize: int) returns (r: int)
      requires Valid() && IsLive(H(), ptr) && 16 <= B[ptr].size == oldsize < asize
      requires 0 < size && IsRequest(size) && asize == AdjustBlockSize(size)
      modifies this, mem, seg_free_lists
      ensures Valid()
      ensures r == 0 ==> H() == old(H())
      ensures r == 0 <==> !GrowsDown(old(H()), ptr, asize) && NoRoom(old(H()), asize, 4 * mem.Length)
      ensures r != 0 ==> Resized(old(H()), H(), ptr, r, size, asize)
      ensures r != 0 ==> end == old(end) + if GrowsDown(old(H()), ptr, asize) || !BestFit(old(B), asize, 0) then 0 else ExtendSize(asize)
      ensures r != 0 && GrowsDown(old(H()), ptr, asize) ==> InFront(old(H()), r, ptr)
    {
      ghost var h := H();
      LiveFacts(h, ptr);
      hide Ready, Resized, NoRoom, GrowsDown;
      var w := GetWord(ptr - 4);
      if !PrevBit(w) {
        var nextsize := GetSize(ptr + oldsize);
        r := ReallocIntoPrev(ptr, size, asize, oldsize, nextsize);
        if r != 0 {
          return;
        }
      } else {
        NothingInFront(h, ptr, asize);
      }
      r := ReallocByCopy(ptr, size, asize, oldsize);
    }

    /** Case 2: the free block behind is large enough. */
    method ReallocIntoNext(ptr: int, ghost size: int, asize: int, oldsize: int, nextsize: int)
      requires Whole() && IsLive(H(), ptr) && B[ptr].size == oldsize && IsFree(B, ptr + oldsize) && B[ptr + oldsize].size == nextsize
      requires asize % 8 == 0 && 8 <= asize <= oldsize + nextsize && 0 <= size <= asize - 4
      modifies this`B, this`L, mem, seg_free_lists
      ensures Whole() && Resized(old(H()), H(), ptr, ptr, size, asize)
    {
      ghost var h := H();
      ReadHeader(h, 1, 0, ptr);
      var w := GetWord(ptr - 4);
      TidyFacts(h, ptr + oldsize);
      RemoveBlock(ptr + oldsize);
      ghost var h1 := H();
      LiveWithNextTakeable(h, h1, ptr);
      CarveFront(ptr, asize, oldsize + nextsize, PrevBit(w), ptr);
      CarvedAfterRemoval(h, h1, H(), ptr, size, asize);
    }

    /** Writes of cases 3 and 4 once `mem_sbrk` has succeeded: what is left over is always too small to split. */
    method GrowBlock(ptr: int, total: int, ghost asize: int)
      requires MemOk() && Sound(H()) && Takeable(H(), ptr, end, ptr) && mem_brk == ptr + total && end + 16 <= ptr + total
      requires (ptr + total - end) % 8 == 0 && asize <= total
      modifies this`B, this`end, mem
      ensures Whole() && end == mem_brk
      ensures LiveChange(old(H()), H(), ptr, ptr) && IsLive(H(), ptr) && B[ptr].size == total
      ensures SameWords(old(mem[..]), mem[..], ptr, ptr + asize - 4)
    {
      ghost var h := H();
      GrowRoom(h, ptr, ptr + total);
      var w := GetWord(ptr - 4);
      MakeGrownAlloc(ptr, total, PrevBit(w));
      hide Takeable, Sound, Ready, LiveChange, SameWords, WriteAlloc, WriteEpilogue, AfterCut, AfterGrowth, IsCell, HasRoom, Get;
      GrowAllocPlan(h, H(), ptr, ptr + total, ptr);
      SameWordsLess(h.m, mem[..], ptr, ptr + total - 4, ptr, ptr + asize - 4);
    }

    method MakeGrownAlloc(ptr: int, total: int, prev_alloc: bool)
      requires MemOk() && HasRoom(mem[..], ptr, total) && IsCell(mem[..], ptr + total - 4) && end <= ptr + total == mem_brk
      modifies this`B, this`end, mem
      ensures MemOk() && end == mem_brk
      ensures var h := old(H());
        H() == AfterCut(AfterGrowth(h, ptr + total), WriteEpilogue(WriteAlloc(h.m, ptr, total, prev_alloc), ptr + total, true),
                        ptr, ptr + total, ptr + total, true, true)
    {
      WriteGrownAlloc(ptr, total, prev_alloc);
      B := Cut(Grown(B, end, ptr + total), ptr, ptr + total, ptr + total, true, true);
      end := ptr + total;
    }

    method WriteGrownAlloc(bp: int, size: int, prev_alloc: bool)
      requires MemOk() && HasRoom(mem[..], bp, size) && IsCell(mem[..], bp + size - 4)
      modifies mem
      ensures MemOk() && seg_free_lists[..] == old(seg_free_lists[..])
      ensures mem[..] == WriteEpilogue(WriteAlloc(old(mem[..]), bp, size, prev_alloc), bp + size, true)
    {
      hide Get, WriteAlloc, WriteEpilogue, IsCell, HasRoom;
      ghost var m := mem[..];
      WriteAllocBlock(bp, size, prev_alloc);
      CellsKept(m, mem[..]);
      WriteNewEpilogue(bp + size, true);
    }

    /** Case 3: the block is the last one, and the heap grows. */
    method ReallocAtEnd(ptr: int, ghost size: int, asize: int, oldsize: int) returns (done: bool)
      requires Valid() && IsLive(H(), ptr) && B[ptr].size == oldsize < asize < 0x1_0000_0000 && ptr + oldsize == end
      requires asize % 8 == 0 && oldsize % 8 == 0 && 0 <= size <= asize - 4 && 16 <= oldsize
      modifies this, mem
      ensures Valid()
      ensures done <==> old(end) + GrowBytes(asize - oldsize) <= 4 * mem.Length
      ensures done ==> end == old(end) + GrowBytes(asize - oldsize)
      ensures if done then Resized(old(H()), H(), ptr, ptr, size, asize) else H() == old(H())
    {
      ghost var h := H();
      var extend := GrowBytes(asize - oldsize);
      var p := Sbrk(ToInt(extend));
      if p == -1 {
        return false;
      }
      LiveTakeable(h, ptr);
      GrowBlock(ptr, oldsize + extend, asize);
      ResizedInPlace(h, H(), ptr, size, asize, asize - 4);
      return true;
    }

    /** Case 4: the free block behind is the last one, and the heap grows. */
    method ReallocNextAndEnd(ptr: int, ghost size: int, asize: int, oldsize: int, nextsize: int) returns (done: bool)
      requires Valid() && IsLive(H(), ptr) && B[ptr].size == oldsize && IsFree(B, ptr + oldsize)
      requires B[ptr + oldsize].size == nextsize && ptr + oldsize + nextsize == end
      requires oldsize + nextsize < asize < 0x1_0000_0000 && asize % 8 == 0 && oldsize % 8 == 0 && nextsize % 8 == 0
      requires 0 <= size <= asize - 4 && 16 <= oldsize && 16 <= nextsize
      modifies this, mem, seg_free_lists
      ensures Valid()
      ensures done <==> old(end) + GrowBytes(asize - oldsize - nextsize) <= 4 * mem.Length
      ensures done ==> end == old(end) + GrowBytes(asize - oldsize - nextsize)
      ensures if done then Resized(old(H()), H(), ptr, ptr, size, asize) else H() == old(H())
    {
      ghost var h := H();
      var extend := GrowBytes(asize - oldsize - nextsize);
      var p := Sbrk(ToInt(extend));
      if p == -1 {
        return false;
      }
      TidyFacts(h, ptr + oldsize);
      RemoveBlock(ptr + oldsize);
      ghost var h1 := H();
      LiveWithNextTakeable(h, h1, ptr);
      GrowBlock(ptr, oldsize + nextsize + extend, asize);
      CarvedAfterRemoval(h, h1, H(), ptr, size, asize);
      return true;
    }

    /** Case 5: the free block in front, with the one behind if that is free too, is large enough. */
    method ReallocIntoPrev(ptr: int, ghost size: int, asize: int, oldsize: int, nextsize: int) returns (r: int)
      requires Whole() && IsLive(H(), ptr) && B[ptr].size == oldsize && !B[ptr].prevAlloc
      requires ptr + oldsize in B && B[ptr + oldsize].size == nextsize
      requires asize % 8 == 0 && oldsize < asize && 16 <= oldsize && 0 <= size <= asize - 4
      modifies this`B, this`L, mem, seg_free_lists
      ensures Whole()
      ensures r == 0 <==> !GrowsDown(old(H()), ptr, asize)
      ensures if r == 0 then H() == old(H()) else Resized(old(H()), H(), ptr, r, size, asize) && InFront(old(H()), r, ptr)
    {
      ghost var h := H();
      ghost var p := LivePrevFacts(h, ptr);
      var prevsize := GetSize(ptr - 4);
      var prevbp := ptr - prevsize;
      var totalsize := prevsize + oldsize;
      LiveFacts(h, ptr);
      var next_header := GetWord(ptr + oldsize - 4);
      var next_free := !AllocBit(next_header);
      if next_free {
        totalsize := totalsize + nextsize;
      }
      GrowsDownBy(h, ptr, p, asize);
      hide Ready, Resized, GrowsDown;
      if totalsize < asize {
        return 0;
      }
      JoinDown(ptr, size, asize, oldsize, prevbp, next_free, totalsize);
      r := prevbp;
    }

    method JoinDown(ptr: int, ghost size: int, asize: int, oldsize: int, prevbp: int, next_free: bool, totalsize: int)
      requires Whole() && IsLive(H(), ptr) && B[ptr].size == oldsize && IsFree(B, prevbp) && prevbp + B[prevbp].size == ptr
      requires ptr + oldsize in B && next_free == !B[ptr + oldsize].alloc && prevbp % 8 == 0 && oldsize % 8 == 0 && ptr % 8 == 0
      requires totalsize == B[prevbp].size + oldsize + (if next_free then B[ptr + oldsize].size else 0)
      requires asize % 8 == 0 && oldsize < asize <= totalsize && 16 <= oldsize && 0 <= size <= asize - 4 && 16 <= B[prevbp].size
      requires 0 <= B[ptr + oldsize].size
      modifies this`B, this`L, mem, seg_free_lists
      ensures Whole() && Resized(old(H()), H(), ptr, prevbp, size, asize)
    {
      ghost var h := H();
      hide Ready, Resized, Takeable, LiveChange, SameOutside, BytesMoved, Carved;
      ClearNeighbours(ptr, oldsize, prevbp, next_free);
      ghost var h1 := H();
      MoveDown(ptr, oldsize, prevbp, totalsize);
      ghost var h2 := H();
      var w := GetWord(prevbp - 4);
      CarveJoined(ptr, asize, prevbp, totalsize, PrevBit(w));
      MovedDown(h, h1, h2, H(), prevbp, prevbp + totalsize, ptr, size, asize, Handed(asize, totalsize));
    }

    method CarveJoined(ghost ptr: int, asize: int, prevbp: int, totalsize: int, prev_alloc: bool)
      requires MemOk() && Takeable(H(), prevbp, prevbp + totalsize, ptr) && prev_alloc == PrevOf(B, prevbp)
      requires asize % 8 == 0 && 8 <= asize <= totalsize
      modifies this`B, this`L, mem, seg_free_lists
      ensures Whole() && Carved(old(H()), H(), ptr, prevbp, Handed(asize, totalsize))
    {
      hide Takeable, Carved, Ready;
      var remain := totalsize - asize;
      if remain >= MIN_FREE_BLOCK_SIZE {
        SplitAndCoalesce(prevbp, asize, remain, prev_alloc, ptr);
      } else {
        CarveAll(prevbp, totalsize, prev_alloc, ptr);
      }
    }

    /** `remove_block` on the free neighbours. */
    method ClearNeighbours(ptr: int, ghost oldsize: int, prevbp: int, next_free: bool)
      requires Whole() && IsLive(H(), ptr) && B[ptr].size == oldsize && IsFree(B, prevbp) && prevbp + B[prevbp].size == ptr
      requires ptr + oldsize in B && next_free == !B[ptr + oldsize].alloc
      modifies this`L, mem, seg_free_lists
      ensures MemOk() && LiveChange(old(H()), H(), 0, 0) && PrevTold(H(), prevbp)
      ensures Takeable(H(), prevbp, ptr + oldsize + (if next_free then B[ptr + oldsize].size else 0), ptr)
    {
      ghost var h := H();
      TidyFacts(h, prevbp);
      FreeCells(mem[..], B, end, prevbp);
      TileFacts(B, end, ptr);
      RemoveBlock(prevbp);
      ghost var h1 := H();
      if next_free {
        StillListed(h, h1, prevbp, ptr + oldsize);
        ReadHeader(h1, 1, 0, ptr);
        var size := GetSize(ptr);
        RemoveBlock(ptr + size);
        AllThreeTakeable(h, h1, H(), prevbp, ptr);
        LiveChangeThenQuiet(h, h1, H(), 0, 0);
      } else {
        PrevWithLiveTakeable(h, h1, prevbp, ptr);
      }
      ReadHeader(H(), 1, 0, prevbp);
    }

    /** `memmove` of the payload to the front of the stretch. */
    method MoveDown(ptr: int, oldsize: int, prevbp: int, ghost total: int)
      requires MemOk() && Takeable(H(), prevbp, prevbp + total, ptr) && ptr in B && B[ptr].size == oldsize
      requires prevbp + 16 <= ptr && ptr + oldsize <= prevbp + total && 16 <= oldsize && ptr % 8 == 0 && oldsize % 8 == 0
      requires PrevTold(H(), prevbp)
      modifies mem
      ensures MemOk() && H() == old(H()).(m := mem[..]) && Takeable(H(), prevbp, prevbp + total, ptr)
      ensures SameOutside(old(mem[..]), mem[..], prevbp, prevbp + total - 4)
      ensures BytesMoved(old(mem[..]), ptr, mem[..], prevbp, oldsize - 4)
      ensures PrevTold(H(), prevbp)
    {
      ghost var h := H();
      MoveRoom(h, prevbp, total, ptr, oldsize);
      hide Takeable, SameOutside, BytesMoved, AllWords, Get, IsCell;
      MoveBytes(prevbp, ptr, oldsize - 4);
      SameOutsideLess(h.m, mem[..], prevbp, prevbp + oldsize - 4, prevbp, prevbp + total - 4);
      MovedTakeable(h, H(), prevbp, prevbp + total, ptr);
      PrevStillTold(h, H(), prevbp, prevbp + total - 4);
    }

    /** Case 6: a new block, a copy, and the old block given back. */
    method ReallocByCopy(ptr: int, size: int, ghost asize: int, oldsize: int) returns (r: int)
      requires Valid() && IsLive(H(), ptr) && 16 <= B[ptr].size == oldsize
      requires 0 < size && IsRequest(size) && asize == AdjustBlockSize(size)
      modifies this, mem, seg_free_lists
      ensures Valid()
      ensures r == 0 <==> NoRoom(old(H()), asize, 4 * mem.Length)
      ensures r == 0 ==> H() == old(H())
      ensures r != 0 ==> Resized(old(H()), H(), ptr, r, size, asize)
      ensures r != 0 ==> end == old(end) + if BestFit(old(B), asize, 0) then ExtendSize(asize) else 0
    {
      ghost var h := H();
      r := Malloc(size);
      if r == 0 {
        return;
      }
      ghost var h1 := H();
      var copySize := oldsize - WSIZE;
      if size < copySize {
        copySize := size;
      }
      CopyRoom(h, h1, ptr, r, size, asize, copySize);
      MoveBytes(r, ptr, copySize);
      ghost var h2 := H();
      SameOutsideLess(h1.m, h2.m, r, r + (copySize + 3) / 4 * 4, r, r + B[r].size - 4);
      PayloadWritten(h1, h2, r);
      assert LiveKept(h1, h2, ptr);
      Free(ptr);
      Copied(h, h1, h2, H(), ptr, r, size, asize);
    }

    // ----- init

    /** A heap of `words` words that `mem_sbrk` has handed out none of. */
    constructor (words: nat)
      requires 4 * words <= 0x7FFF_FFFF
      ensures MemOk() && mem_brk == 0 && mem.Length == words && fresh(mem) && fresh(seg_free_lists)
    {
      mem := new int[words](_ => 0);
      seg_free_lists := new int[LISTLIMIT](_ => 0);
      mem_brk, end := 0, 0;
      B, L := map[], [];
    }

    /** `mm_init`: the prologue, the epilogue and a first free block. */
    method Init() returns (ok: bool)
      requires MemOk() && mem_brk == 0
      modifies this, mem, seg_free_lists
      ensures ok <==> 16 + CHUNKSIZE <= 4 * mem.Length
      ensures ok ==> Valid() && end == 16 + CHUNKSIZE && forall a :: !IsLive(H(), a)
    {
      for i := 0 to LISTLIMIT
        invariant MemOk() && mem_brk == 0 && forall j :: 0 <= j < i ==> seg_free_lists[j] == 0
      {
        seg_free_lists[i] := 0;
      }
      var heap_listp := Sbrk(4 * WSIZE);
      if heap_listp == -1 {
        return false;
      }
      WriteFrame();
      B, L := FrameBlocks(), seq(LISTLIMIT, _ => []);
      end := 16;
      FrameReady(H());
      ghost var h := H();
      var bp := ExtendHeap(CHUNKSIZE / WSIZE);
      ok := bp != 0;
      assert ok ==> forall a :: IsLive(H(), a) ==> IsLive(h, a);
    }

    /** Padding, prologue header and footer, epilogue header. */
    method WriteFrame()
      requires MemOk() && 16 <= 4 * mem.Length
      modifies mem
      ensures MemOk() && seg_free_lists[..] == old(seg_free_lists[..])
      ensures Get(mem[..], 4) == Pack(8, true, true) && Get(mem[..], 8) == Pack(8, true, true)
      ensures Get(mem[..], 12) == Pack(0, true, true)
    {
      PutWord(0, 0);
      PutWord(4, Pack(DSIZE, true, true));
      PutWord(8, Pack(DSIZE, true, true));
      PutWord(12, Pack(0, true, true));
    }
  }
}
