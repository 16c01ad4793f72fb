/** The allocator of `mmexplicit.c`: header and footer on every block, and one free list, last in first
    out.  Methods carry the names of the C functions; addresses are offsets from the start of the heap.
 */
module ExplicitHeap {
  import opened SegWords
  import opened SegLayout
  import opened SegLists
  import opened SegSteps
  import SegMoves
  import SegHeap
  import SegSpace
  import opened ExplicitLists
  import opened ExplicitSteps

  const byte4 := 4
  const byte8 := 8
  const size4096 := 1024


  /** The block size for a request. */
  function BlockSize(size: int): (asize: int)
    requires 0 < size
    ensures asize % 8 == 0 && LEAST_BLOCK <= asize && size + 8 <= asize && (asize == LEAST_BLOCK || asize < size + 16)
  {
    var asize := if size <= byte8 then 2 * byte8 else byte8 * ((size + byte8 + (byte8 - 1)) / byte8);
    if asize < LEAST_BLOCK then LEAST_BLOCK else asize
  }

  /** The first block of the list with at least `asize` bytes; NULL when there is none. */
  ghost predicate FirstFit(B: Blocks, s: seq<int>, asize: int, bp: int) {
    if bp == 0 then forall a :: IsFree(B, a) ==> B[a].size < asize
    else exists j :: 0 <= j < |s| && s[j] == bp && IsFree(B, bp) && asize <= B[bp].size
                     && forall k :: 0 <= k < j ==> s[k] in B && B[s[k]].size < asize
  }

  // ----- what the methods read

  lemma UnlinkCells(h: Heap, j: nat)
    requires Coherent(h) && j < |h.L[0]|
    ensures var bp, p, q := h.L[0][j], At(h.L[0], j - 1), At(h.L[0], j + 1);
      && Ptr(h.m, bp) == p && Ptr(h.m, bp + 8) == q && 0 <= p < WORD && 0 <= q < WORD && (p == 0 <==> j == 0)
      && IsCell(h.m, bp) && IsCell(h.m, bp + 4) && IsCell(h.m, bp + 8) && IsCell(h.m, bp + 12)
      && (p != 0 ==> IsCell(h.m, p + 8) && IsCell(h.m, p + 12)) && (q != 0 ==> IsCell(h.m, q) && IsCell(h.m, q + 4))
  {
    var s := h.L[0];
    assert PtrOk(h.m, s, j) && IsFree(h.B, s[j]);
    FreeRoom(h.m, h.B, h.brk, s[j]);
    AtFacts(h.m, h.B, h.brk, s, j - 1);
    AtFacts(h.m, h.B, h.brk, s, j + 1);
  }

  lemma PushCells(h: Heap, bp: int)
    requires Coherent(h) && IsFree(h.B, bp)
    ensures IsCell(h.m, bp) && IsCell(h.m, bp + 4) && IsCell(h.m, bp + 8) && IsCell(h.m, bp + 12) && 0 <= bp < WORD
    ensures 0 <= h.seg[0] < WORD && (h.seg[0] != 0 ==> IsCell(h.m, h.seg[0]) && IsCell(h.m, h.seg[0] + 4))
  {
    FreeRoom(h.m, h.B, h.brk, bp);
    AtFacts(h.m, h.B, h.brk, h.L[0], 0);
  }

  /** A block, its two tags and the header behind it. */
  lemma BlockReads(h: Heap, a: int)
    requires Coherent(h) && a in h.B && a != h.brk
    ensures IsCell(h.m, a - 4) && SizeOf(Get(h.m, a - 4)) == h.B[a].size && 8 <= h.B[a].size
    ensures var next := a + h.B[a].size;
      && IsCell(h.m, next - 8) && SizeOf(Get(h.m, next - 8)) == h.B[a].size && AllocBit(Get(h.m, next - 8)) == h.B[a].alloc
      && next in h.B && IsCell(h.m, next - 4) && SizeOf(Get(h.m, next - 4)) == h.B[next].size
      && AllocBit(Get(h.m, next - 4)) == h.B[next].alloc
  {
    hide Get, IsCell, Tag, Tiled, Tagged, Large, FreeList, SizeOf, AllocBit;
    TagAt(h, a);
    TagAt(h, a + h.B[a].size);
  }

  lemma LooseReads(h: Heap, bp: int) returns (p: int)
    requires Loose(h, bp)
    ensures p in h.B && p != h.brk && bp != h.brk && p + h.B[p].size == bp && h.B[p].alloc == h.B[bp].prevAlloc
    ensures !h.B[p].alloc ==> PROLOGUE < p && p in h.L[0] && h.B[p].prevAlloc && p + LEAST_BLOCK <= bp
    ensures PROLOGUE < bp
  {
    TagAt(h, bp);
    p := PreviousBlock(h.B, h.brk, bp);
    TagAt(h, p);
    if !h.B[p].alloc { assert Tidy(h, p); }
    BreakFacts(h.B, h.brk);
  }

  lemma LooseNext(h: Heap, bp: int)
    requires Loose(h, bp) && IsFree(h.B, bp + h.B[bp].size)
    ensures var next := bp + h.B[bp].size; var hi := next + h.B[next].size;
      next in h.L[0] && next != h.brk && hi in h.B && h.B[hi].alloc && bp < next < hi
  {
    hide TagOk, Tagged, FreeList, Large;
    TagAt(h, bp);
    var next := bp + h.B[bp].size;
    TagAt(h, next);
    BreakFacts(h.B, h.brk);
    var hi := next + h.B[next].size;
    assert Tidy(h, next) || next in h.L[0];
    assert IsFree(h.B, hi) ==> Tidy(h, hi);
  }

  lemma LooseFacts(h: Heap, bp: int)
    requires Loose(h, bp)
    ensures Coherent(h) && |h.L| == 1 && |h.seg| == 1 && bp != h.brk && h.B[bp].size % 8 == 0 && LEAST_BLOCK <= h.B[bp].size
    ensures bp + h.B[bp].size in h.B
  {
    BreakFacts(h.B, h.brk);
    TagAt(h, bp);
  }

  lemma SettledFacts(h: Heap)
    requires Settled(h)
    ensures Coherent(h)
  {
  }

  lemma StillLoose(h: Heap, h1: Heap, x: int, y: int)
    requires Left(h, h1, x) && y in h.L[0] && x != y
    ensures y in h1.L[0]
  {
  }

  lemma PlaceReads(h: Heap, bp: int)
    requires Settled(h) && IsFree(h.B, bp)
    ensures Coherent(h) && |h.L| == 1 && bp in h.L[0] && bp != h.brk && PROLOGUE < bp && h.B[bp].size % 8 == 0
    ensures IsCell(h.m, bp - 4) && SizeOf(Get(h.m, bp - 4)) == h.B[bp].size
  {
    assert Tidy(h, bp);
    TagAt(h, bp);
    BreakFacts(h.B, h.brk);
    BlockReads(h, bp);
  }

  lemma OpenFacts(h: Heap, lo: int, hi: int)
    requires Open(h, lo, hi)
    ensures HasRoom(h.m, lo, hi - lo) && lo in h.B && hi in h.B && |h.L| == 1 && LEAST_BLOCK <= hi - lo
  {
    OpenRoom(h, lo, hi);
  }

  lemma PartRoom(m: Memory, bp: int, asize: int, csize: int)
    requires HasRoom(m, bp, csize) && asize % 8 == 0 && LEAST_BLOCK <= asize && asize + LEAST_BLOCK <= csize
    ensures HasRoom(m, bp, asize) && (bp + asize) % 8 == 0
    ensures forall m' :: |m'| == |m| ==> HasRoom(m', bp + asize, csize - asize)
  {
    EightsApart(asize, csize);
  }

  lemma TagIsWord(m: Memory, bp: int, size: int, alloc: bool)
    requires 8 <= bp && 0 <= size && size % 8 == 0 && bp + size <= 4 * |m| <= 0x7FFF_FFFF
    ensures IsWord(Tag(size, alloc)) && SizeOf(Tag(size, alloc)) == size
  {
  }

  lemma RoomBounds(m: Memory, bp: int, size: int)
    requires HasRoom(m, bp, size)
    ensures 8 <= bp && 8 <= size && size % 8 == 0 && bp + size <= 4 * |m|
  {
  }

  lemma FooterOf(m: Memory, m': Memory, bp: int, size: int)
    requires HasRoom(m, bp, size) && LEAST_BLOCK <= size
    requires m' == PutPtr(PutPtr(Put(m, bp - 4, Tag(size, false)), bp, 0), bp + 8, 0)
    ensures SizeOf(Get(m', bp - 4)) == size
  {
    RoomCells(m, bp, size);
    hide Get, Put, Tag, SizeOf, IsCell;
  }

  lemma FitFacts(B: Blocks, s: seq<int>, asize: int, bp: int)
    requires FirstFit(B, s, asize, bp) && bp != 0
    ensures IsFree(B, bp) && asize <= B[bp].size
  {
  }

  lemma FreeReads(h: Heap, ptr: int)
    requires Settled(h) && IsLive(h, ptr)
    ensures IsCell(h.m, ptr - 4) && SizeOf(Get(h.m, ptr - 4)) == h.B[ptr].size
    ensures HasRoom(h.m, ptr, h.B[ptr].size) && LEAST_BLOCK <= h.B[ptr].size
  {
    BlockReads(h, ptr);
    LiveAlone(h, ptr);
    OpenRoom(h, ptr, ptr + h.B[ptr].size);
  }

  lemma StillLive(h: Heap, h1: Heap, ptr: int, r: int)
    requires LiveChange(h, h1, r, r) && IsLive(h, ptr) && ptr != r
    ensures IsLive(h1, ptr)
  {
    assert LiveKept(h, h1, ptr);
  }

  // ----- coalescing

  lemma OpenAlone(h: Heap, bp: int)
    requires Loose(h, bp) && h.B[bp].prevAlloc && bp + h.B[bp].size in h.B && h.B[bp + h.B[bp].size].alloc && PROLOGUE < bp
    ensures Open(h, bp, bp + h.B[bp].size)
  {
    TagAt(h, bp);
    BreakFacts(h.B, h.brk);
    BlockAlone(h, bp);
    OpenLoose(h, h, bp, bp, bp + h.B[bp].size, {});
  }

  lemma OpenNext(h: Heap, h1: Heap, bp: int)
    requires Loose(h, bp) && h.B[bp].prevAlloc && PROLOGUE < bp && IsFree(h.B, bp + h.B[bp].size)
    requires Left(h, h1, bp + h.B[bp].size)
    ensures var next := bp + h.B[bp].size; Open(h1, bp, next + h.B[next].size)
  {
    var next := bp + h.B[bp].size;
    LooseNext(h, bp);
    BreakFacts(h.B, h.brk);
    BlockAlone(h, bp);
    BlockAlone(h1, next);
    OpenLoose(h, h1, bp, bp, next + h.B[next].size, {next});
  }

  lemma OpenPrev(h: Heap, h1: Heap, bp: int, p: int)
    requires Loose(h, bp) && bp + h.B[bp].size in h.B && h.B[bp + h.B[bp].size].alloc && bp != h.brk
    requires IsFree(h.B, p) && PROLOGUE < p && p != h.brk && p + h.B[p].size == bp && h.B[p].prevAlloc && Left(h, h1, p)
    ensures Open(h1, p, bp + h.B[bp].size)
  {
    TagAt(h, p);
    TagAt(h, bp);
    BlockAlone(h, bp);
    BlockAlone(h1, p);
    OpenLoose(h, h1, bp, p, bp + h.B[bp].size, {p});
  }

  lemma OpenBoth(h: Heap, h1: Heap, h2: Heap, bp: int, p: int)
    requires Loose(h, bp) && IsFree(h.B, bp + h.B[bp].size) && bp != h.brk
    requires IsFree(h.B, p) && PROLOGUE < p && p != h.brk && p + h.B[p].size == bp && h.B[p].prevAlloc
    requires Left(h, h1, p) && Left(h1, h2, bp + h.B[bp].size)
    ensures var next := bp + h.B[bp].size; Open(h2, p, next + h.B[next].size)
  {
    var next := bp + h.B[bp].size;
    LooseNext(h, bp);
    TagAt(h, p);
    BlockAlone(h, bp);
    BlockAlone(h1, p);
    BlockAlone(h2, next);
    OpenLoose(h, h2, bp, p, next + h.B[next].size, {p, next});
  }

  /** The footer that used to end the block at `p` is still there after the merge: `PREV_BLKP` finds `p`. */
  lemma StaleFooter(h: Heap, p: int, bp: int, hi: int)
    requires Open(h, p, hi) && p + h.B[p].size == bp < hi && bp in h.B
    ensures var m := WritePush(WriteTwo(h.m, p, hi - p, Tag(hi - p, false)), p, h.seg[0]);
      |m| == |h.m| && IsCell(m, bp - 8) && bp - SizeOf(Get(m, bp - 8)) == p
  {
    hide Tag, Get, Put, PutPtr, IsCell, SizeOf, Tagged, NoneIn, AllocBit, Pack, FreeList;
    OpenRoom(h, p, hi);
    BlockReads(h, p);
    TagAt(h, p);
    TagAt(h, bp);
    TagAt(h, hi);
    BeforeEnd(h, bp, hi);
    SameCell(h.m, WritePush(WriteTwo(h.m, p, hi - p, Tag(hi - p, false)), p, h.seg[0]), bp - 8);
    FarFromHead(h, p, bp, hi);
    KeptByPush(h.m, p, bp, hi, h.seg[0]);
  }

  lemma BeforeEnd(h: Heap, bp: int, hi: int)
    requires Coherent(h) && bp in h.B && hi in h.B && bp < hi && PROLOGUE < bp
    ensures bp + LEAST_BLOCK <= hi
  {
    TagAt(h, bp);
    TagAt(h, hi);
    Apart(h.B, h.brk, bp, hi);
  }

  lemma FarFromHead(h: Heap, p: int, bp: int, hi: int)
    requires Open(h, p, hi) && p < bp < hi && p + LEAST_BLOCK <= bp
    ensures h.seg[0] == 0 || h.seg[0] + 16 <= p || hi <= h.seg[0]
    ensures 0 <= h.seg[0] < WORD
  {
    AtFacts(h.m, h.B, h.brk, h.L[0], 0);
    if h.seg[0] != 0 {
      var a := h.L[0][0];
      assert IsFree(h.B, a);
      if a < p {
        TagAt(h, a);
        BreakFacts(h.B, h.brk);
        Apart(h.B, h.brk, a, p);
      }
    }
  }

  lemma KeptByPush(m: Memory, p: int, bp: int, hi: int, head: int)
    requires p + LEAST_BLOCK <= bp && bp + 8 <= hi && (head == 0 || head + 16 <= p || hi <= head)
    requires 0 <= head && 16 <= p
    ensures Get(WritePush(WriteTwo(m, p, hi - p, Tag(hi - p, false)), p, head), bp - 8) == Get(m, bp - 8)
  {
    hide Tag, Get, Put, IsCell;
  }

  // ----- the order of the list

  /** Taking `x` off the list leaves the others in their order. */
  ghost predicate SameOff(s: seq<int>, s': seq<int>, x: int) {
    forall lo, hi {:trigger OffList(s', lo, hi)} :: lo <= x < hi ==> OffList(s', lo, hi) == OffList(s, lo, hi)
  }

  lemma StaysOff(s: seq<int>, j: nat)
    requires j < |s|
    ensures SameOff(s, RemoveAt(s, j), s[j])
  {
    forall lo, hi | lo <= s[j] < hi ensures OffList(RemoveAt(s, j), lo, hi) == OffList(s, lo, hi) { OffRemoved(s, j, lo, hi); }
  }

  /** `r` heads the list, and behind it the blocks outside its stretch keep their order. */
  ghost predicate Heads(h: Heap, h1: Heap, r: int) {
    |h.L| == |h1.L| == 1 && r in h1.B && h1.L[0] == [r] + OffList(h.L[0], r, r + h1.B[r].size)
  }

  lemma OpenIsOff(h: Heap, lo: int, hi: int)
    requires Open(h, lo, hi)
    ensures |h.L| == 1 && OffList(h.L[0], lo, hi) == h.L[0]
  {
    OffNone(h.L[0], lo, hi);
  }

  // ----- malloc, free, realloc

  lemma FreeNotNull(h: Heap, a: int)
    requires Coherent(h) && IsFree(h.B, a)
    ensures a != 0
  {
    TagAt(h, a);
  }

  lemma NewIsFresh(h: Heap, h1: Heap, bp: int)
    requires Coherent(h) && IsFree(h.B, bp) && IsLive(h1, bp) && h1.brk == h.brk
    ensures !IsLive(h, bp) && bp % 8 == 0
  {
    TagAt(h, bp);
  }

  /** `r` is a new block with the `asize` bytes it needs, and no more than could not stand alone; nothing else
      has changed for the callers. */
  ghost predicate Allocated(h: Heap, h1: Heap, r: int, asize: int) {
    && LiveChange(h, h1, 0, r) && IsLive(h1, r) && !IsLive(h, r) && r % 8 == 0
    && asize <= h1.B[r].size < asize + LEAST_BLOCK && h.brk <= h1.brk
  }

  /** The block is the first on the list that is large enough, used up if what is left over could not stand
      alone; or there was none, and the heap has grown by what `mm_malloc` asks for. */
  ghost predicate Served(h: Heap, h1: Heap, r: int, asize: int)
    requires |h.L| == 1
  {
    if FirstFit(h.B, h.L[0], asize, 0) then h1.brk == h.brk + SegHeap.Max(asize, size4096)
    else && FirstFit(h.B, h.L[0], asize, r) && r in h.B && r in h1.B && h1.brk == h.brk
         && h1.B[r].size == if h.B[r].size - asize >= LEAST_BLOCK then asize else h.B[r].size
  }

  lemma SettledIsMerged(h: Heap)
    requires Settled(h)
    ensures SegSpace.Merged(h) && h.brk % 8 == 0
  {
    BreakFacts(h.B, h.brk);
    forall a | IsFree(h.B, a) ensures h.B[a].prevAlloc { assert Tidy(h, a); }
  }

  lemma BytesAfter(h: Heap, h1: Heap, gone: int, came: int)
    requires Settled(h) && Settled(h1) && LiveChange(h, h1, gone, came) && h.brk <= h1.brk
    requires (gone == 0 || IsLive(h, gone)) && (came == 0 || (IsLive(h1, came) && (came == gone || !IsLive(h, came))))
    ensures SegSpace.Accounted(h, h1, gone, came)
  {
    hide Settled, LiveChange, SegSpace.Merged, SegSpace.Accounted;
    SettledIsMerged(h);
    SettledIsMerged(h1);
    SegSpace.FreeBytesAfter(h, h1, gone, came);
  }

  lemma AllocatedAfter(h: Heap, h1: Heap, h2: Heap, r: int, asize: int)
    requires LiveChange(h, h1, 0, 0) && Allocated(h1, h2, r, asize) && h.brk <= h1.brk
    ensures Allocated(h, h2, r, asize)
  {
    QuietThenLiveChange(h, h1, h2, 0, r);
    assert IsLive(h, r) ==> LiveKept(h, h1, r);
  }

  /** Writing into a caller's block changes nothing but its contents. */
  lemma PayloadStep(h: Heap, m': Memory, r: int)
    requires Settled(h) && IsLive(h, r) && SameOutside(h.m, m', r, r + h.B[r].size - 8)
    ensures Settled(h.(m := m')) && LiveChange(h, h.(m := m'), r, r)
  {
    var hi := r + h.B[r].size;
    LiveAlone(h, r);
    OpenRoom(h, r, hi);
    TagAt(h, r);
    CutOfItself(h, r);
    SameOutsideLess(h.m, m', r, hi - 8, r - 4, hi - 4);
    TagAround(h.m, m', h.B, r);
    CutCoherent(h, m', r, hi, hi, true, true);
    SameOutsideLess(h.m, m', r - 4, hi - 4, r - 4, hi);
    SegMoves.CutLive(h, m', r, hi, hi, true, true, r, r);
    forall a | IsFree(h.B, a) ensures Tidy(h.(m := m'), a) { assert Tidy(h, a); }
    hide Coherent, LiveChange, Tag, Cut;
  }

  lemma TagAround(m: Memory, m': Memory, B: Blocks, r: int)
    requires TagOk(m, B, r) && SameOutside(m, m', r, r + B[r].size - 8)
    ensures TagOk(m', B, r)
  {
    CellsKept(m, m');
    hide Get, Tag, IsCell;
  }

  lemma CutOfItself(h: Heap, r: int)
    requires Coherent(h) && IsLive(h, r)
    ensures Cut(h.B, r, r + h.B[r].size, r + h.B[r].size, true, true) == h.B
  {
    var hi := r + h.B[r].size;
    LiveAlone(h, r);
    TagAt(h, r);
    var C := Cut(h.B, r, hi, hi, true, true);
    assert C[r] == h.B[r] && C[hi] == h.B[hi];
    forall a ensures a in C <==> a in h.B {
      assert r < a < hi ==> a !in h.B;
    }
  }

  /** The new block holds the old contents, as far as both go. */
  ghost predicate Moved(h: Heap, h1: Heap, ptr: int, r: int, size: int) {
    && LiveChange(h, h1, ptr, r) && IsLive(h1, r) && !IsLive(h, r) && r % 8 == 0 && ptr in h.B && BlockSize(if size > 0 then size else 1) <= h1.B[r].size
    && h1.B[r].size < BlockSize(if size > 0 then size else 1) + LEAST_BLOCK
    && SegMoves.BytesMoved(h.m, ptr, h1.m, r, Min(size, h.B[ptr].size - 8))
  }

  function Min(x: int, y: int): int {
    if x < y then x else y
  }

  lemma CopyRoom(h: Heap, h1: Heap, ptr: int, r: int, size: int, n: int)
    requires Settled(h) && Settled(h1) && IsLive(h, ptr) && 0 < size && Allocated(h, h1, r, BlockSize(size))
    requires n == Min(size, h.B[ptr].size - 8)
    ensures IsLive(h1, ptr) && h1.B[ptr].size == h.B[ptr].size && ptr != r
    ensures 0 <= n && 0 <= ptr && 0 <= r && ptr % 8 == 0 && r % 8 == 0 && ptr + n <= 4 * |h1.m| && r + n <= 4 * |h1.m|
    ensures (n + 3) / 4 * 4 <= h1.B[r].size - 8
    ensures ptr + h1.B[ptr].size <= r || r + h1.B[r].size <= ptr
  {
    hide Settled, Coherent, TagOk, IsCell, Tiled, Allocated;
    AllocatedKeeps(h, h1, r, BlockSize(size), ptr);
    SettledFacts(h1);
    TagAt(h1, ptr);
    TagAt(h1, r);
    ApartEither(h1, ptr, r);
    RoundUp(n, h1.B[r].size - 8);
  }

  lemma AllocatedKeeps(h: Heap, h1: Heap, r: int, asize: int, a: int)
    requires Allocated(h, h1, r, asize) && IsLive(h, a)
    ensures IsLive(h1, a) && h1.B[a].size == h.B[a].size && a != r && IsLive(h1, r) && asize <= h1.B[r].size
  {
    assert LiveKept(h, h1, a);
  }

  lemma ApartEither(h: Heap, a: int, b: int)
    requires Coherent(h) && a in h.B && b in h.B && a != b
    ensures a + h.B[a].size <= b || b + h.B[b].size <= a
  {
    if a < b { Apart(h.B, h.brk, a, b); } else { Apart(h.B, h.brk, b, a); }
  }

  lemma RoundUp(n: int, k: int)
    requires n <= k && k % 8 == 0
    ensures (n + 3) / 4 * 4 <= k
  {
    var q := k / 8;
    assert (n + 3) / 4 <= 2 * q;
  }

  /** No free block on the list is large enough, and the break cannot move; `top` is the end of the memory. */
  ghost predicate NoRoom(h: Heap, asize: int, top: int) {
    |h.L| == 1 && FirstFit(h.B, h.L[0], asize, 0) && h.brk + SegHeap.Max(asize, size4096) > top
  }

  lemma EvenWords(words: int)
    requires words % 2 == 0
    ensures words * byte4 % 8 == 0
  {
    var q := words / 2;
    assert words * byte4 == 8 * q;
  }

  lemma FitOrNot(B: Blocks, s: seq<int>, asize: int, bp: int)
    requires FirstFit(B, s, asize, bp)
    ensures bp != 0 ==> !FirstFit(B, s, asize, 0)
  {
  }

  lemma MovedDone(h: Heap, h1: Heap, h2: Heap, h3: Heap, ptr: int, r: int, size: int)
    requires 0 < size && Settled(h) && IsLive(h, ptr) && Allocated(h, h1, r, BlockSize(size)) && ptr != r
    requires LiveChange(h1, h2, r, r) && h2.B == h1.B && h2.brk == h1.brk && LiveChange(h2, h3, ptr, 0)
    requires SegMoves.BytesMoved(h1.m, ptr, h2.m, r, Min(size, h.B[ptr].size - 8))
    ensures Moved(h, h3, ptr, r, size)
  {
    var n := Min(size, h.B[ptr].size - 8);
    hide SegMoves.BytesMoved, Settled, BlockSize, SegMoves.ByteMoved;
    PayloadsKept(h, h1, h2, h3, ptr, r);
    MovedLive(h, h1, h2, h3, ptr, r);
    hide LiveChange, SameWords;
    FourDivides(ptr);
    FourDivides(r);
    ShorterWords(h.m, h1.m, ptr, n, h.B[ptr].size - 8);
    SegMoves.WordsAreBytes(h.m, h1.m, ptr, n);
    BytesThen(h.m, ptr, h1.m, h2.m, r, n);
    ShorterWords(h2.m, h3.m, r, n, h1.B[r].size - 8);
    SegMoves.BytesMovedThen(h.m, ptr, h2.m, r, h3.m, n);
  }

  /** The old payload survives the allocation, and the new one the release. */
  lemma PayloadsKept(h: Heap, h1: Heap, h2: Heap, h3: Heap, ptr: int, r: int)
    requires Settled(h) && IsLive(h, ptr) && LiveChange(h, h1, 0, r) && ptr != r && IsLive(h2, r)
    requires h2.B == h1.B && h2.brk == h1.brk && LiveChange(h2, h3, ptr, 0)
    ensures ptr % 8 == 0 && SameWords(h.m, h1.m, ptr, ptr + h.B[ptr].size - 8)
    ensures IsLive(h3, r) && h3.B[r].size == h2.B[r].size && SameWords(h2.m, h3.m, r, r + h2.B[r].size - 8)
  {
    TagAt(h, ptr);
    hide Settled, SameWords;
    assert LiveKept(h, h1, ptr);
    assert LiveKept(h2, h3, r);
  }

  lemma ShorterWords(m: Memory, m1: Memory, a: int, n: int, k: int)
    requires SameWords(m, m1, a, a + k) && n <= k
    ensures SameWords(m, m1, a, a + n)
  {
  }

  lemma BytesThen(m: Memory, src: int, m1: Memory, m2: Memory, dst: int, n: int)
    requires SegMoves.BytesMoved(m, src, m1, src, n) && SegMoves.BytesMoved(m1, src, m2, dst, n)
    ensures SegMoves.BytesMoved(m, src, m2, dst, n)
  {
    hide Byte;
    forall k | 0 <= k < n ensures SegMoves.ByteMoved(m, src, m2, dst, k) {
      assert SegMoves.ByteMoved(m, src, m1, src, k) && SegMoves.ByteMoved(m1, src, m2, dst, k);
    }
  }

  lemma MovedLive(h: Heap, h1: Heap, h2: Heap, h3: Heap, ptr: int, r: int)
    requires LiveChange(h, h1, 0, r) && !IsLive(h, r) && LiveChange(h1, h2, r, r) && LiveChange(h2, h3, ptr, 0) && ptr != r
    ensures LiveChange(h, h3, ptr, r)
  {
    forall a | IsLive(h, a) && a != ptr ensures LiveKept(h, h3, a) {
      assert LiveKept(h, h1, a);
      assert LiveKept(h1, h2, a);
      assert LiveKept(h2, h3, a);
    }
  }

  /** `k` words copied from index `s` to index `d`. */
  function CopiedSeq(m: Memory, d: nat, s: nat, k: nat): (r: Memory)
    requires d + k <= |m| && s + k <= |m|
    ensures |r| == |m|
  {
    seq(|m|, i requires 0 <= i < |m| => if d <= i < d + k then m[s + i - d] else m[i])
  }

  lemma InWords(a: int, n: int, words: nat)
    requires 0 <= a && a % 8 == 0 && 0 <= n && a + n <= 4 * words
    ensures 0 <= a / 4 && a % 4 == 0 && a / 4 + n / 4 <= words && a + 4 * (n / 4) <= 4 * words
  {
    var x, y := a / 8, n / 4;
    assert a == 4 * (2 * x);
    assert a / 4 == 2 * x;
    assert 4 * (2 * x) + 4 * y <= 4 * words;
  }

  lemma CopiedWords(m: Memory, m1: Memory, dst: int, src: int, k: int)
    requires 0 <= k && 0 <= dst && 0 <= src && dst % 8 == 0 && src % 8 == 0 && dst + 4 * k <= 4 * |m| && src + 4 * k <= 4 * |m|
    requires m1 == CopiedSeq(m, dst / 4, src / 4, k)
    ensures SameOutside(m, m1, dst, dst + 4 * k) && SegHeap.WordsMoved(m, src, m1, dst, k)
  {
    hide SameOutside, SegHeap.WordsMoved, CopiedSeq;
    FourDivides(dst);
    FourDivides(src);
    CopiedByIndex(m, m1, dst / 4, src / 4, k);
  }

  lemma FourDivides(a: int)
    requires a % 8 == 0
    ensures a == 4 * (a / 4) && a % 4 == 0
  {
    var q := a / 8;
    assert a == 4 * (2 * q);
  }

  lemma CopiedByIndex(m: Memory, m1: Memory, d: nat, s: nat, k: nat)
    requires d + k <= |m| && s + k <= |m| && m1 == CopiedSeq(m, d, s, k)
    ensures SameOutside(m, m1, 4 * d, 4 * d + 4 * k) && SegHeap.WordsMoved(m, 4 * s, m1, 4 * d, k)
  {
    forall j | 0 <= j < k ensures SegHeap.WordMoved(m, 4 * s, m1, 4 * d, j) {
      assert (4 * d + 4 * j) / 4 == d + j && (4 * s + 4 * j) / 4 == s + j;
    }
    forall q | q < 4 * d || 4 * d + 4 * k <= q ensures Get(m1, q) == Get(m, q) {
      if IsCell(m, q) { assert q / 4 < d || d + k <= q / 4; }
    }
  }

  /** What `mm_init` starts from: nothing between the prologue and the epilogue. */
  lemma FrameSettled(h: Heap)
    requires h.brk == 16 <= 4 * |h.m| <= 0x7FFF_FFFF && h.B == SegHeap.FrameBlocks() && h.seg == [0] && h.L == [[]]
    requires Get(h.m, 4) == Get(h.m, 8) == Tag(8, true) && Get(h.m, 12) == Tag(0, true)
    ensures Settled(h) && forall a :: !IsLive(h, a)
  {
    forall a | a in h.B ensures TileOk(h.B, h.brk, a) && TagOk(h.m, h.B, a) {
    }
    forall a, b | a in h.B && b in h.B && a < b ensures EndsBefore(h.B, a, b) {
    }
  }

  class Allocator {
    const mem: array<int>
    var mem_brk: int
    var heap_listp: int
    var free_listp: int
    ghost var end: int
    ghost var B: Blocks
    ghost var L: seq<int>

    /** The memory holds 32-bit words, and the break is inside it. */
    ghost predicate MemOk()
      reads this, mem
    {
      SegHeap.AllWords(mem[..]) && 0 <= end <= mem_brk <= 4 * mem.Length <= 0x7FFF_FFFF
    }

    ghost function H(): Heap
      reads this, mem
    {
      Heap(mem[..], [free_listp], end, B, [L])
    }

    ghost predicate Valid()
      reads this, mem
    {
      MemOk() && Settled(H()) && end == mem_brk
    }

    method PutWord(p: int, v: int)
      requires MemOk() && IsCell(mem[..], p) && IsWord(v)
      modifies mem
      ensures MemOk() && mem[..] == Put(old(mem[..]), p, v)
    {
      SegHeap.PutWords(mem[..], p, v);
      mem[p / 4] := v;
    }

    method GetWord(p: int) returns (v: int)
      requires MemOk() && IsCell(mem[..], p)
      ensures v == Get(mem[..], p) && IsWord(v)
    {
      SegHeap.GetWords(mem[..], p);
      v := mem[p / 4];
    }

    /** `GET_SIZE(headaddress(bp))`. */
    method GetSize(bp: int) returns (size: int)
      requires MemOk() && IsCell(mem[..], bp - 4)
      ensures size == SizeOf(Get(mem[..], bp - 4))
    {
      var w := GetWord(bp - 4);
      size := SizeOf(w);
    }

    method GetPointer(p: int) returns (v: int)
      requires MemOk() && IsCell(mem[..], p) && IsCell(mem[..], p + 4)
      ensures v == Ptr(mem[..], p)
    {
      var low := GetWord(p);
      var high := GetWord(p + 4);
      v := low + WORD * high;
    }

    method PutPointer(p: int, v: int)
      requires MemOk() && IsCell(mem[..], p) && IsCell(mem[..], p + 4) && 0 <= v < WORD
      modifies mem
      ensures MemOk() && mem[..] == PutPtr(old(mem[..]), p, v)
    {
      hide Put, Get, SegHeap.AllWords;
      ghost var m := mem[..];
      PutWord(p, v % WORD);
      SameCell(m, mem[..], p + 4);
      PutWord(p + 4, v / WORD);
    }

    /** The header, and the footer found through it. */
    method SetTags(bp: int, size: int, alloc: bool)
      requires MemOk() && HasRoom(mem[..], bp, size) && LEAST_BLOCK <= size
      modifies mem
      ensures MemOk() && mem[..] == WriteTwo(old(mem[..]), bp, size, Tag(size, alloc))
    {
      RoomCells(mem[..], bp, size);
      TagIsWord(mem[..], bp, size, alloc);
      hide Put, Get, SegHeap.AllWords, IsCell, SizeOf, Tag, HasRoom;
      ghost var m := mem[..];
      PutWord(bp - 4, Tag(size, alloc));
      SameCell(m, mem[..], bp - 4);
      SameCell(m, mem[..], bp + size - 8);
      var fsize := GetSize(bp);
      PutWord(bp + fsize - 8, Tag(size, alloc));
    }

    // ----- the list

    /** Takes a block out of the free list. */
    method Unlink(bp: int)
      requires MemOk() && Coherent(H()) && bp in L
      modifies this`L, this`free_listp, mem
      ensures MemOk() && Left(old(H()), H(), bp) && SameOff(old(L), L, bp)
    {
      ghost var h := H();
      ghost var j :| 0 <= j < |L| && L[j] == bp;
      UnlinkCells(h, j);
      var prev := GetPointer(bp);
      var next := GetPointer(bp + 8);
      RewirePointers(prev, next);
      L := RemoveAt(L, j);
      UnlinkStep(h, H(), j);
      StaysOff(h.L[0], j);
    }

    method RewirePointers(prev: int, next: int)
      requires MemOk() && 0 <= prev < WORD && 0 <= next < WORD
      requires prev != 0 ==> IsCell(mem[..], prev + 8) && IsCell(mem[..], prev + 12)
      requires next != 0 ==> IsCell(mem[..], next) && IsCell(mem[..], next + 4)
      modifies this`free_listp, mem
      ensures MemOk() && mem[..] == WriteUnlink(old(mem[..]), prev, next)
      ensures free_listp == if prev == 0 then next else old(free_listp)
    {
      hide Get, PutPtr, SegHeap.AllWords, IsCell;
      ghost var m := mem[..];
      if prev != 0 {
        PutPointer(prev + 8, next);
      } else {
        free_listp := next;
      }
      CellsKept(m, mem[..]);
      if next != 0 {
        PutPointer(next, prev);
      }
    }

    /** Puts a block in front of the free list. */
    method PushFront(bp: int, ghost hi: int)
      requires MemOk() && Open(H(), bp, hi) && B[bp].size == hi - bp
      modifies this`L, this`free_listp, mem
      ensures MemOk() && H() == Pushed(old(H()), bp) && Settled(H()) && LiveChange(old(H()), H(), 0, 0)
    {
      ghost var h := H();
      PushStep(h, bp, hi);
      PushCells(h, bp);
      PushPointers(bp);
      L := [bp] + L;
    }

    method PushPointers(bp: int)
      requires MemOk() && 0 <= bp < WORD && 0 <= free_listp < WORD
      requires IsCell(mem[..], bp) && IsCell(mem[..], bp + 4) && IsCell(mem[..], bp + 8) && IsCell(mem[..], bp + 12)
      requires free_listp != 0 ==> IsCell(mem[..], free_listp) && IsCell(mem[..], free_listp + 4)
      modifies this`free_listp, mem
      ensures MemOk() && mem[..] == WritePush(old(mem[..]), bp, old(free_listp)) && free_listp == bp
    {
      hide Get, PutPtr, SegHeap.AllWords, IsCell;
      ghost var m := mem[..];
      PutPointer(bp, 0);
      CellsKept(m, mem[..]);
      PutPointer(bp + 8, free_listp);
      CellsKept(m, mem[..]);
      if free_listp != 0 {
        PutPointer(free_listp, bp);
      }
      free_listp := bp;
    }

    // ----- coalesce

    method Coalesce(bp: int) returns (r: int)
      requires MemOk() && Loose(H(), bp)
      modifies this`B, this`L, this`free_listp, mem
      ensures MemOk() && Settled(H()) && LiveChange(old(H()), H(), 0, 0)
      ensures IsFree(B, r) && old(B[bp].size) <= B[r].size && r <= bp < r + B[r].size && Heads(old(H()), H(), r)
    {
      hide Get, IsCell, SizeOf, AllocBit, Coherent, LiveChange, Settled, SegHeap.AllWords;
      ghost var h := H();
      ghost var p := LooseReads(h, bp);
      LooseFacts(h, bp);
      BlockReads(h, p);
      BlockReads(h, bp);
      var pw := GetWord(bp - 8);
      var prev := bp - SizeOf(pw);
      var psize := GetSize(prev);
      var fw := GetWord(prev + psize - 8);
      var size := GetSize(bp);
      var nw := GetWord(bp + size - 4);
      if AllocBit(fw) && AllocBit(nw) {
        OpenAlone(h, bp);
        OpenIsOff(h, bp, bp + size);
        PushFront(bp, bp + size);
        r := bp;
      } else if AllocBit(fw) {
        r := CoalesceNext(bp, size);
      } else if AllocBit(nw) {
        r := CoalescePrev(bp, size, prev);
      } else {
        r := CoalesceBoth(bp, size, prev);
      }
    }

    /** The stretch from `lo` to `hi` has just been tagged as one free block: it goes on the list. */
    method Finish(lo: int, ghost hi: int, ghost h: Heap)
      requires MemOk() && Open(h, lo, hi) && H() == h.(m := WriteTwo(h.m, lo, hi - lo, Tag(hi - lo, false)))
      modifies this`B, this`L, this`free_listp, mem
      ensures MemOk() && Settled(H()) && LiveChange(h, H(), 0, 0) && IsFree(B, lo) && B[lo].size == hi - lo
      ensures mem[..] == WritePush(old(mem[..]), lo, old(free_listp)) && L == [lo] + old(L)
    {
      hide Coherent, LiveChange, Tag, WriteTwo, SegHeap.AllWords;
      B := Cut(B, lo, hi, hi, false, false);
      ghost var h1 := H();
      MergeStep(h, lo, hi);
      PushFront(lo, hi);
      LiveChangeThenQuiet(h, h1, H(), 0, 0);
    }

    method CoalesceNext(bp: int, size: int) returns (r: int)
      requires MemOk() && Loose(H(), bp) && size == B[bp].size && B[bp].prevAlloc && IsFree(B, bp + size) && PROLOGUE < bp
      modifies this`B, this`L, this`free_listp, mem
      ensures MemOk() && Settled(H()) && LiveChange(old(H()), H(), 0, 0) && IsFree(B, r) && size <= B[r].size
      ensures r <= bp < r + B[r].size && Heads(old(H()), H(), r)
    {
      hide Get, Coherent, LiveChange, Settled, Tag, WriteTwo, SegHeap.AllWords, WritePush, IsCell, Open;
      ghost var h := H();
      var next := bp + size;
      LooseFacts(h, bp);
      LooseNext(h, bp);
      Unlink(next);
      ghost var h1 := H();
      OpenNext(h, h1, bp);
      BlockReads(h1, next);
      var nsize := GetSize(next);
      OpenRoom(h1, bp, next + nsize);
      SetTags(bp, size + nsize, false);
      OpenIsOff(h1, bp, next + nsize);
      Finish(bp, next + nsize, h1);
      LiveChangeThenQuiet(h, h1, H(), 0, 0);
      r := bp;
    }

    method CoalescePrev(bp: int, size: int, prev: int) returns (r: int)
      requires MemOk() && Loose(H(), bp) && size == B[bp].size && bp + size in B && B[bp + size].alloc && bp != end
      requires IsFree(B, prev) && PROLOGUE < prev && prev != end && prev + B[prev].size == bp && B[prev].prevAlloc && prev in L
      modifies this`B, this`L, this`free_listp, mem
      ensures MemOk() && Settled(H()) && LiveChange(old(H()), H(), 0, 0) && IsFree(B, r) && size <= B[r].size
      ensures r <= bp < r + B[r].size && Heads(old(H()), H(), r)
    {
      hide Get, Coherent, LiveChange, Settled, Tag, WriteTwo, SegHeap.AllWords, SizeOf, WritePush, Open, IsCell;
      ghost var h := H();
      LooseFacts(h, bp);
      Unlink(prev);
      ghost var h1 := H();
      OpenPrev(h, h1, bp, prev);
      StaleFooter(h1, prev, bp, bp + size);
      BlockReads(h1, prev);
      var psize := GetSize(prev);
      TagOver(prev, bp, size + psize);
      OpenIsOff(h1, prev, bp + size);
      Finish(prev, bp + size, h1);
      LiveChangeThenQuiet(h, h1, H(), 0, 0);
      var w := GetWord(bp - 8);
      r := bp - SizeOf(w);
    }

    method CoalesceBoth(bp: int, size: int, prev: int) returns (r: int)
      requires MemOk() && Loose(H(), bp) && size == B[bp].size && IsFree(B, bp + size) && bp != end
      requires IsFree(B, prev) && PROLOGUE < prev && prev != end && prev + B[prev].size == bp && B[prev].prevAlloc && prev in L
      modifies this`B, this`L, this`free_listp, mem
      ensures MemOk() && Settled(H()) && LiveChange(old(H()), H(), 0, 0) && IsFree(B, r) && size <= B[r].size
      ensures r <= bp < r + B[r].size && Heads(old(H()), H(), r)
    {
      hide Get, Coherent, LiveChange, Settled, Tag, WriteTwo, SegHeap.AllWords, SizeOf, WritePush, Open, IsCell;
      ghost var h := H();
      var next := bp + size;
      LooseFacts(h, bp);
      LooseNext(h, bp);
      Unlink(prev);
      ghost var h1 := H();
      StillLoose(h, h1, prev, next);
      Unlink(next);
      ghost var h2 := H();
      LiveChangeThenQuiet(h, h1, h2, 0, 0);
      OpenBoth(h, h1, h2, bp, prev);
      BlockReads(h2, prev);
      BlockReads(h2, next);
      var psize := GetSize(prev);
      var nsize := GetSize(next);
      StaleFooter(h2, prev, bp, next + nsize);
      TagOver(prev, next, size + psize + nsize);
      OpenIsOff(h2, prev, next + nsize);
      Finish(prev, next + nsize, h2);
      LiveChangeThenQuiet(h, h2, H(), 0, 0);
      var w := GetWord(bp - 8);
      r := bp - SizeOf(w);
    }

    /** The header of the merged block, and its footer found through the header of the last part. */
    method TagOver(lo: int, last: int, total: int)
      requires MemOk() && Open(H(), lo, lo + total) && lo < last && last in B && last + B[last].size == lo + total && last != end
      modifies mem
      ensures MemOk() && mem[..] == WriteTwo(old(mem[..]), lo, total, Tag(total, false))
    {
      ghost var m := mem[..];
      BlockReads(H(), last);
      OpenRoom(H(), lo, lo + total);
      RoomCells(m, lo, total);
      TagIsWord(m, lo, total, false);
      hide Open, Get, Put, Tag, SizeOf, SegHeap.AllWords, IsCell, HasRoom, Coherent;
      PutWord(lo - 4, Tag(total, false));
      SameCell(m, mem[..], last - 4);
      SameCell(m, mem[..], lo + total - 8);
      var lsize := GetSize(last);
      PutWord(last + lsize - 8, Tag(total, false));
    }

    // ----- find_fit and place

    method FindFit(asize: int) returns (bp: int)
      requires MemOk() && Settled(H())
      ensures FirstFit(B, L, asize, bp)
    {
      ghost var h := H();
      HeadNotNull(h);
      bp := free_listp;
      ghost var k := 0;
      while bp != 0
        invariant k <= |L| && bp == At(L, k)
        invariant forall i :: 0 <= i < k ==> L[i] in B && B[L[i]].size < asize
        decreases |L| - k
      {
        assert IsFree(B, L[k]) && PtrOk(mem[..], L, k);
        UnlinkCells(h, k);
        BlockReads(h, bp) by { FreeRoom(mem[..], B, end, bp); BreakFacts(B, end); }
        var size := GetSize(bp);
        if asize <= size { return; }
        bp := GetPointer(bp + 8);
        k := k + 1;
      }
      forall a | IsFree(B, a) ensures B[a].size < asize {
        assert Tidy(h, a);
      }
    }

    method Place(bp: int, asize: int)
      requires MemOk() && Settled(H()) && IsFree(B, bp) && asize % 8 == 0 && LEAST_BLOCK <= asize <= B[bp].size
      modifies this`B, this`L, this`free_listp, mem
      ensures MemOk() && Settled(H()) && LiveChange(old(H()), H(), 0, bp) && IsLive(H(), bp)
      ensures var csize := old(B[bp].size); B[bp].size == if csize - asize >= LEAST_BLOCK then asize else csize
      ensures L == (if B[bp].size < old(B[bp].size) then [bp + asize] else []) + OffList(old(L), bp, bp + old(B[bp].size))
    {
      hide Get, Coherent, LiveChange, Settled, Tag, WriteTwo, SegHeap.AllWords, SizeOf, Open, IsCell;
      ghost var h := H();
      PlaceReads(h, bp);
      var csize := GetSize(bp);
      Unlink(bp);
      ghost var h1 := H();
      OpenTaken(h, h1, bp);
      OpenFacts(h1, bp, bp + csize);
      OpenIsOff(h1, bp, bp + csize);
      if csize - asize >= LEAST_BLOCK {
        PlaceFront(bp, asize, csize);
      } else {
        SetTags(bp, csize, true);
        B := Cut(B, bp, bp + csize, bp + csize, true, true);
        TakeAllStep(h1, bp, bp + csize);
      }
      QuietThenLiveChange(h, h1, H(), 0, bp);
    }

    method PlaceFront(bp: int, asize: int, csize: int)
      requires MemOk() && Open(H(), bp, bp + csize) && asize % 8 == 0 && LEAST_BLOCK <= asize && asize + LEAST_BLOCK <= csize
      modifies this`B, this`L, this`free_listp, mem
      ensures MemOk() && Settled(H()) && LiveChange(old(H()), H(), 0, bp) && IsLive(H(), bp) && B[bp].size == asize
      ensures L == [bp + asize] + old(L)
    {
      hide Get, Coherent, LiveChange, Settled, Tag, WriteTwo, SegHeap.AllWords, SizeOf, Open, IsCell, HasRoom;
      ghost var h1 := H();
      OpenFacts(h1, bp, bp + csize);
      PartRoom(mem[..], bp, asize, csize);
      SetTags(bp, asize, true);
      var next := NextOf(bp, asize, h1.m);
      SetTags(next, csize - asize, false);
      B := Cut(B, bp, bp + asize, bp + csize, true, false);
      TakeFrontStep(h1, bp, bp + asize, bp + csize);
      ghost var h2 := H();
      PushFront(next, bp + csize);
      LiveChangeThenQuiet(h1, h2, H(), 0, bp);
    }

    /** `NEXT_BLKP` after the header has been rewritten. */
    method NextOf(bp: int, ghost size: int, ghost m: Memory) returns (next: int)
      requires MemOk() && HasRoom(m, bp, size) && LEAST_BLOCK <= size && mem[..] == WriteTwo(m, bp, size, Tag(size, true))
      ensures next == bp + size
    {
      RoomCells(m, bp, size);
      WriteTwoHeader(m, bp, size, Tag(size, true));
      SameCell(m, mem[..], bp - 4);
      var s := GetSize(bp);
      next := bp + s;
    }

    // ----- growing the heap

    /** `mem_sbrk`: the old break, or -1 when the request is negative or exceeds the heap. */
    method Sbrk(incr: int) returns (p: int)
      requires MemOk()
      modifies this`mem_brk
      ensures MemOk()
      ensures if incr < 0 || old(mem_brk) + incr > 4 * mem.Length then p == -1 && mem_brk == old(mem_brk)
              else p == old(mem_brk) && mem_brk == old(mem_brk) + incr
    {
      if incr < 0 || mem_brk + incr > 4 * mem.Length {
        return -1;
      }
      p := mem_brk;
      mem_brk := mem_brk + incr;
    }

    method ExtendHeap(words: int) returns (r: int)
      requires Valid() && words % 2 == 0 && LEAST_BLOCK <= 4 * words < WORD
      modifies this`B, this`L, this`free_listp, this`end, this`mem_brk, mem
      ensures Valid()
      ensures r == 0 <==> old(mem_brk) + 4 * words > 4 * mem.Length
      ensures r == 0 ==> H() == old(H())
      ensures r != 0 ==> IsFree(B, r) && 4 * words <= B[r].size && LiveChange(old(H()), H(), 0, 0) && end == old(end) + 4 * words
      ensures r != 0 ==> r <= old(end) < r + B[r].size && Heads(old(H()), H(), r)
    {
      hide Coherent, LiveChange, Settled, SegHeap.AllWords;
      EvenWords(words);
      var size := if words % 2 == 1 then (words + 1) * byte4 else words * byte4;
      var bp := Sbrk(SegHeap.ToInt(size));
      if bp == -1 {
        return 0;
      }
      r := AbsorbGrowth(bp, size);
    }

    /** The new memory as a free block, merged with a free block in front. */
    method AbsorbGrowth(bp: int, size: int) returns (r: int)
      requires MemOk() && Settled(H()) && bp == end && LEAST_BLOCK <= size && size % 8 == 0 && mem_brk == end + size
      modifies this`B, this`L, this`free_listp, this`end, mem
      ensures Valid() && r != 0 && IsFree(B, r) && size <= B[r].size && LiveChange(old(H()), H(), 0, 0)
      ensures r <= old(end) < r + B[r].size && Heads(old(H()), H(), r)
    {
      hide Coherent, LiveChange, Settled, SegHeap.AllWords, Extended, Loose;
      ghost var h := H();
      SettledFacts(h);
      MakeGrown(bp, size);
      ghost var h1 := H();
      GrowStep(h, bp + size);
      r := Coalesce(bp);
      LiveChangeThenQuiet(h, h1, H(), 0, 0);
      SettledFacts(H());
      FreeNotNull(H(), r);
    }

    method MakeGrown(bp: int, size: int)
      requires MemOk() && Coherent(H()) && bp == end && LEAST_BLOCK <= size && size % 8 == 0 && mem_brk == end + size
      modifies this`B, this`end, mem
      ensures MemOk() && end == mem_brk && H() == Extended(old(H()), bp + size)
    {
      GrowRoom(H(), bp + size);
      WriteGrownWords(bp, size);
      B := Grown(B, bp, bp + size);
      end := bp + size;
    }

    method WriteGrownWords(bp: int, size: int)
      requires MemOk() && HasRoom(mem[..], bp, size) && LEAST_BLOCK <= size
      modifies mem
      ensures MemOk() && mem[..] == WriteGrown(old(mem[..]), bp, bp + size)
    {
      hide Get, Put, PutPtr, Tag, SizeOf, SegHeap.AllWords, IsCell, HasRoom, IsWord;
      ghost var m := mem[..];
      RoomCells(m, bp, size);
      EightOn(m, bp, size);
      RoomBounds(m, bp, size);
      TagIsWord(m, bp, size, false);
      TagIsWord(m, bp, 0, true);
      WriteFreeHeader(bp, Tag(size, false));
      CellsKept(m, mem[..]);
      FooterOf(m, mem[..], bp, size);
      var fsize := GetSize(bp);
      PutWord(bp + fsize - 8, Tag(size, false));
      CellsKept(m, mem[..]);
      PutWord(bp + size - 4, Tag(0, true));
    }

    /** A header, and two null pointers behind it. */
    method WriteFreeHeader(bp: int, tag: int)
      requires MemOk() && IsWord(tag) && IsCell(mem[..], bp - 4)
      requires IsCell(mem[..], bp) && IsCell(mem[..], bp + 4) && IsCell(mem[..], bp + 8) && IsCell(mem[..], bp + 12)
      modifies mem
      ensures MemOk() && mem[..] == PutPtr(PutPtr(Put(old(mem[..]), bp - 4, tag), bp, 0), bp + 8, 0)
    {
      hide Get, Put, PutPtr, SegHeap.AllWords, IsCell, IsWord;
      ghost var m := mem[..];
      PutWord(bp - 4, tag);
      CellsKept(m, mem[..]);
      PutPointer(bp, 0);
      CellsKept(m, mem[..]);
      PutPointer(bp + 8, 0);
    }

    // ----- malloc, free, realloc

    method Malloc(size: int) returns (r: int)
      requires Valid() && SegHeap.IsRequest(size)
      modifies this`B, this`L, this`free_listp, this`end, this`mem_brk, mem
      ensures Valid()
      ensures size == 0 ==> r == 0
      ensures r == 0 ==> H() == old(H())
      ensures size > 0 ==> (r == 0 <==> NoRoom(old(H()), BlockSize(size), 4 * mem.Length))
      ensures r != 0 ==> Allocated(old(H()), H(), r, BlockSize(size)) && Served(old(H()), H(), r, BlockSize(size))
      ensures r != 0 ==> SegSpace.Accounted(old(H()), H(), 0, r)
    {
      hide Coherent, LiveChange, Settled, SegHeap.AllWords, FirstFit, SegSpace.Accounted;
      if size == 0 {
        return 0;
      }
      ghost var h := H();
      var asize := BlockSize(size);
      r := FindFit(asize);
      FitOrNot(B, L, asize, r);
      if r != 0 {
        FitFacts(B, L, asize, r);
        PlaceReads(h, r);
        Place(r, asize);
        NewIsFresh(h, H(), r);
        BytesAfter(h, H(), 0, r);
        return;
      }
      r := MallocGrowing(asize);
      if r != 0 { BytesAfter(h, H(), 0, r); }
    }

    method MallocGrowing(asize: int) returns (r: int)
      requires Valid() && asize % 8 == 0 && LEAST_BLOCK <= asize && SegHeap.Max(asize, size4096) < WORD
      modifies this`B, this`L, this`free_listp, this`end, this`mem_brk, mem
      ensures Valid()
      ensures r == 0 <==> old(end) + SegHeap.Max(asize, size4096) > 4 * mem.Length
      ensures r == 0 ==> H() == old(H())
      ensures r != 0 ==> Allocated(old(H()), H(), r, asize) && end == old(end) + SegHeap.Max(asize, size4096)
    {
      hide Coherent, LiveChange, Settled, SegHeap.AllWords;
      ghost var h := H();
      var extendsize := SegHeap.Max(asize, size4096);
      r := ExtendHeap(extendsize / byte4);
      if r == 0 {
        return;
      }
      ghost var h1 := H();
      PlaceReads(h1, r);
      Place(r, asize);
      NewIsFresh(h1, H(), r);
      AllocatedAfter(h, h1, H(), r, asize);
    }

    method Free(ptr: int)
      requires Valid() && IsLive(H(), ptr)
      modifies this`B, this`L, this`free_listp, mem
      ensures Valid() && LiveChange(old(H()), H(), ptr, 0) && SegSpace.Accounted(old(H()), H(), ptr, 0)
      ensures L != [] && IsFree(B, L[0]) && L[0] <= ptr < L[0] + B[L[0]].size && Heads(old(H()), H(), L[0])
    {
      hide Coherent, LiveChange, Settled, SegHeap.AllWords, Tag, WriteTwo, HasRoom, IsCell;
      ghost var h := H();
      FreeReads(h, ptr);
      var size := GetSize(ptr);
      SetTags(ptr, size, false);
      B := Cut(B, ptr, ptr + size, ptr + size, false, false);
      ghost var h1 := H();
      ReleaseStep(h, ptr);
      var r := Coalesce(ptr);
      LiveChangeThenQuiet(h, h1, H(), ptr, 0);
      BytesAfter(h, H(), ptr, 0);
    }

    /** `memcpy` between two blocks, word by word and then the bytes that are left. */
    method CopyBytes(dst: int, src: int, n: int)
      requires MemOk() && 0 <= n && 0 <= dst && 0 <= src && dst % 8 == 0 && src % 8 == 0
      requires dst + n <= 4 * mem.Length && src + n <= 4 * mem.Length && (src + n <= dst || dst + n <= src)
      modifies mem
      ensures MemOk() && SameOutside(old(mem[..]), mem[..], dst, dst + (n + 3) / 4 * 4)
      ensures SegMoves.BytesMoved(old(mem[..]), src, mem[..], dst, n)
    {
      hide Get, Put, Blend, ByteOf, IsCell, SameOutside, CopiedSeq, SegHeap.AllWords, SegHeap.WordsMoved, SegMoves.BytesMoved;
      ghost var m := mem[..];
      InWords(dst, n, mem.Length);
      InWords(src, n, mem.Length);
      CopyWords(dst / 4, src / 4, n / 4);
      ghost var m1 := mem[..];
      CopiedWords(m, m1, dst, src, n / 4);
      if n % 4 != 0 {
        SegHeap.TailInside(m, m1, dst, src, n);
        CopyTail(dst + 4 * (n / 4), src + 4 * (n / 4), n % 4);
      }
      SegHeap.MovedBytes(m, m1, mem[..], dst, src, n);
    }

    method CopyWords(d: nat, s: nat, k: nat)
      requires MemOk() && d + k <= mem.Length && s + k <= mem.Length
      modifies mem
      ensures MemOk() && mem[..] == CopiedSeq(old(mem[..]), d, s, k)
    {
      forall i | 0 <= i < k { mem[d + i] := mem[s + i]; }
      assert forall i :: 0 <= i < mem.Length ==> mem[i] == CopiedSeq(old(mem[..]), d, s, k)[i];
    }

    method CopyTail(dst: int, src: int, k: int)
      requires MemOk() && 0 < k < 4 && IsCell(mem[..], dst) && IsCell(mem[..], src)
      modifies mem
      ensures MemOk() && mem[..] == Put(old(mem[..]), dst, Blend(Get(old(mem[..]), src), Get(old(mem[..]), dst), k))
    {
      var s := GetWord(src);
      var d := GetWord(dst);
      SegHeap.BlendIsWord(s, d, k);
      hide Blend;
      PutWord(dst, Blend(s, d, k));
    }

    method Realloc(ptr: int, size: int) returns (r: int)
      requires Valid() && SegHeap.IsRequest(size) && (ptr != 0 ==> IsLive(H(), ptr))
      modifies this`B, this`L, this`free_listp, this`end, this`mem_brk, mem
      ensures Valid() && (size == 0 ==> r == 0)
      ensures ptr == 0 && r != 0 ==> Allocated(old(H()), H(), r, BlockSize(size)) && Served(old(H()), H(), r, BlockSize(size))
      ensures ptr != 0 && size == 0 ==> r == 0 && LiveChange(old(H()), H(), ptr, 0) && end == old(end)
      ensures size > 0 && r != 0 ==> end == old(end) + if FirstFit(old(B), old(L), BlockSize(size), 0) then SegHeap.Max(BlockSize(size), size4096) else 0
      ensures r != 0 || (ptr != 0 && size == 0) ==> SegSpace.Accounted(old(H()), H(), ptr, r)
      ensures ptr != 0 && size > 0 && r != 0 ==> Moved(old(H()), H(), ptr, r, size)
      ensures r == 0 && (ptr == 0 || size > 0) ==> H() == old(H())
      ensures size > 0 ==> (r == 0 <==> NoRoom(old(H()), BlockSize(size), 4 * mem.Length))
    {
      if ptr == 0 {
        r := Malloc(size);
        return;
      }
      if size == 0 {
        Free(ptr);
        return 0;
      }
      r := ReallocByCopy(ptr, size);
    }

    method ReallocByCopy(ptr: int, size: int) returns (r: int)
      requires Valid() && SegHeap.IsRequest(size) && size > 0 && IsLive(H(), ptr)
      modifies this`B, this`L, this`free_listp, this`end, this`mem_brk, mem
      ensures Valid() && if r == 0 then H() == old(H()) else Moved(old(H()), H(), ptr, r, size) && SegSpace.Accounted(old(H()), H(), ptr, r)
      ensures r != 0 ==> end == old(end) + if FirstFit(old(B), old(L), BlockSize(size), 0) then SegHeap.Max(BlockSize(size), size4096) else 0
      ensures r == 0 <==> NoRoom(old(H()), BlockSize(size), 4 * mem.Length)
    {
      hide Coherent, LiveChange, Settled, SegHeap.AllWords, IsCell;
      ghost var h := H();
      r := Malloc(size);
      if r == 0 {
        return;
      }
      ghost var h1 := H();
      ghost var n := Min(size, h.B[ptr].size - 8);
      CopyRoom(h, h1, ptr, r, size, n);
      FreeReads(h1, ptr);
      var copySize := GetSize(ptr);
      copySize := copySize - byte8;
      if size < copySize {
        copySize := size;
      }
      CopyBytes(r, ptr, copySize);
      ghost var h2 := H();
      SameOutsideLess(h1.m, h2.m, r, r + (n + 3) / 4 * 4, r, r + B[r].size - 8);
      PayloadStep(h1, h2.m, r);
      StillLive(h1, h2, ptr, r);
      Free(ptr);
      MovedDone(h, h1, h2, H(), ptr, r, size);
      BytesAfter(h, H(), ptr, r);
    }

    // ----- init

    /** A heap of `words` words that `mem_sbrk` has handed out none of. */
    constructor (words: nat)
      requires 4 * words <= 0x7FFF_FFFF
      ensures MemOk() && mem_brk == 0 && mem.Length == words && fresh(mem)
    {
      mem := new int[words](_ => 0);
      mem_brk, end, heap_listp, free_listp := 0, 0, 0, 0;
      B, L := map[], [];
    }

    method Init() returns (ok: bool)
      requires MemOk() && mem_brk == 0
      modifies this, mem
      ensures ok <==> 16 + size4096 <= 4 * mem.Length
      ensures ok ==> Valid() && end == 16 + size4096 && forall a :: !IsLive(H(), a)
    {
      free_listp := 0;
      heap_listp := Sbrk(4 * byte4);
      if heap_listp == -1 {
        return false;
      }
      WriteFrame();
      heap_listp := heap_listp + 2 * byte4;
      B, L := SegHeap.FrameBlocks(), [];
      end := 16;
      FrameSettled(H());
      ghost var h := H();
      var bp := ExtendHeap(size4096 / byte4);
      ok := bp != 0;
      assert ok ==> forall a :: IsLive(H(), a) ==> IsLive(h, a);
    }

    /** Padding, prologue header and footer, epilogue header. */
    method WriteFrame()
      requires MemOk() && 16 <= 4 * mem.Length
      modifies mem
      ensures MemOk() && Get(mem[..], 4) == Get(mem[..], 8) == Tag(8, true) && Get(mem[..], 12) == Tag(0, true)
    {
      PutWord(0, 0);
      PutWord(4, Tag(byte8, true));
      PutWord(8, Tag(byte8, true));
      PutWord(12, Tag(0, true));
    }
  }
}
