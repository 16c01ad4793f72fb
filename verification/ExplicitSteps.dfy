/** The states of the explicit allocator and the steps between them. */
module ExplicitSteps {
  import opened SegWords
  import opened SegLayout
  import opened SegLists
  import opened SegSteps
  import SegMoves
  import opened ExplicitLists

  // A state is a `Heap` with one list head and one list.

  /** The word at either end of a block. */
  function Tag(size: int, alloc: bool): (w: int)
    ensures size % 8 == 0 ==> SizeOf(w) == size && AllocBit(w) == alloc
  {
    Pack(size, false, alloc)
  }

  ghost predicate TagOk(m: Memory, B: Blocks, a: int) {
    && a in B && IsCell(m, a - 4) && Get(m, a - 4) == Tag(B[a].size, B[a].alloc)
    && (B[a].size != 0 ==> IsCell(m, a + B[a].size - 8) && Get(m, a + B[a].size - 8) == Tag(B[a].size, B[a].alloc))
  }

  ghost predicate Tagged(m: Memory, B: Blocks) {
    forall a {:trigger TagOk(m, B, a)} :: a in B ==> TagOk(m, B, a)
  }

  /** Blocks with equal header and footer tile the heap, and the free list holds free blocks, each once. */
  ghost predicate Coherent(h: Heap) {
    && |h.seg| == 1 && |h.L| == 1 && h.brk <= 4 * |h.m| <= 0x7FFF_FFFF
    && Tiled(h.B, h.brk) && Large(h.B, h.brk) && Tagged(h.m, h.B) && FreeList(h.m, h.seg[0], h.B, h.L[0])
  }

  ghost predicate Tidy(h: Heap, a: int)
    requires |h.L| == 1
  {
    a in h.B && a in h.L[0] && h.B[a].prevAlloc
  }

  /** Between two calls: every free block is on the list, and no two are adjacent. */
  ghost predicate Settled(h: Heap) {
    Coherent(h) && forall a {:trigger Tidy(h, a)} :: IsFree(h.B, a) ==> Tidy(h, a)
  }

  /** Inside a call: the free block at `x` is not on the list, and may have free neighbours. */
  ghost predicate Loose(h: Heap, x: int) {
    && Coherent(h) && IsFree(h.B, x) && x !in h.L[0]
    && forall a {:trigger Tidy(h, a)} :: IsFree(h.B, a) && a != x ==>
         a in h.L[0] && (a == x + h.B[x].size || Tidy(h, a))
  }

  /** The stretch from `lo` to `hi` consists of free blocks that are not on the list, and lies between
      allocated ones. */
  ghost predicate Open(h: Heap, lo: int, hi: int) {
    && Coherent(h) && lo in h.B && hi in h.B && PROLOGUE < lo < hi && h.B[lo].prevAlloc && h.B[hi].alloc
    && SegMoves.AllFree(h.B, lo, hi) && NoneIn(h.L[0], lo, hi)
    && forall a {:trigger Tidy(h, a)} :: IsFree(h.B, a) && (a < lo || hi <= a) ==> Tidy(h, a)
  }

  lemma TagAt(h: Heap, a: int)
    requires Coherent(h) && a in h.B
    ensures TagOk(h.m, h.B, a) && a % 8 == 0 && PROLOGUE <= a <= h.brk && h.B[a].size % 8 == 0
    ensures a != h.brk ==> a + h.B[a].size in h.B && 8 <= h.B[a].size && (a != PROLOGUE ==> LEAST_BLOCK <= h.B[a].size)
    ensures (a == h.brk <==> h.B[a].size == 0) && h.brk in h.B
    ensures a != h.brk ==> h.B[a + h.B[a].size].prevAlloc == h.B[a].alloc && a + h.B[a].size <= h.brk
  {
    TileFacts(h.B, h.brk, a);
    BreakFacts(h.B, h.brk);
    assert TagOk(h.m, h.B, a);
  }

  /** No free block follows a free block. */
  lemma FreeThenAllocated(h: Heap, a: int)
    requires Settled(h) && IsFree(h.B, a)
    ensures a + h.B[a].size in h.B && h.B[a + h.B[a].size].alloc && a + h.B[a].size <= h.brk
  {
    BreakFacts(h.B, h.brk);
    TagAt(h, a);
    assert Tidy(h, a);
    var next := a + h.B[a].size;
    assert !IsFree(h.B, next) || Tidy(h, next);
  }

  /** The list holds exactly the free blocks, each once. */
  lemma ListIsExact(h: Heap)
    requires Settled(h)
    ensures Distinct(h.L[0]) && forall a :: a in h.L[0] <==> IsFree(h.B, a)
  {
    forall a ensures a in h.L[0] <==> IsFree(h.B, a) {
      assert IsFree(h.B, a) ==> Tidy(h, a);
      if a in h.L[0] {
        var k :| 0 <= k < |h.L[0]| && h.L[0][k] == a;
        assert IsFree(h.B, h.L[0][k]);
      }
    }
  }

  // ----- cuts

  ghost predicate RoomyCut(h: Heap, m': Memory, lo: int, mid: int, hi: int, firstAlloc: bool, secondAlloc: bool) {
    && Coherent(h) && CutOk(h.B, lo, mid, hi, firstAlloc, secondAlloc) && NoneIn(h.L[0], lo, hi)
    && lo + LEAST_BLOCK <= mid && (mid < hi ==> mid + LEAST_BLOCK <= hi) && SameOutside(h.m, m', lo - 4, hi - 4)
  }

  lemma CutTag(h: Heap, m': Memory, lo: int, mid: int, hi: int, firstAlloc: bool, secondAlloc: bool, a: int)
    requires RoomyCut(h, m', lo, mid, hi, firstAlloc, secondAlloc)
    requires a in Cut(h.B, lo, mid, hi, firstAlloc, secondAlloc) && a != lo && (a != mid || mid == hi)
    ensures var C := Cut(h.B, lo, mid, hi, firstAlloc, secondAlloc); TagOk(m', C, a) && LargeAt(C, h.brk, a)
  {
    hide Tiled, Tagged, FreeList, Tag, Get, IsCell, NoneIn, Large;
    TagAt(h, lo);
    TagAt(h, hi);
    TagAt(h, a);
    if a < lo { Apart(h.B, h.brk, a, lo); }
    assert Cut(h.B, lo, mid, hi, firstAlloc, secondAlloc)[a].size == h.B[a].size;
    CellsKept(h.m, m');
    SameCell(h.m, m', a - 4);
    SameCell(h.m, m', a + h.B[a].size - 8);
  }

  lemma SameCell(m: Memory, m': Memory, p: int)
    requires |m'| == |m|
    ensures IsCell(m', p) <==> IsCell(m, p)
  {
  }

  ghost predicate LargeAt(B: Blocks, brk: int, a: int) {
    a in B && (PROLOGUE < a < brk ==> LEAST_BLOCK <= B[a].size)
  }

  lemma CutTags(h: Heap, m': Memory, lo: int, mid: int, hi: int, firstAlloc: bool, secondAlloc: bool)
    requires RoomyCut(h, m', lo, mid, hi, firstAlloc, secondAlloc)
    requires var C := Cut(h.B, lo, mid, hi, firstAlloc, secondAlloc); TagOk(m', C, lo) && (mid < hi ==> TagOk(m', C, mid))
    ensures var C := Cut(h.B, lo, mid, hi, firstAlloc, secondAlloc); forall a :: a in C ==> TagOk(m', C, a) && LargeAt(C, h.brk, a)
  {
    var C := Cut(h.B, lo, mid, hi, firstAlloc, secondAlloc);
    CutFacts(h.B, lo, mid, hi, firstAlloc, secondAlloc);
    hide TagOk, Coherent, Tag, NoneIn, SameOutside;
    forall a | a in C ensures TagOk(m', C, a) && LargeAt(C, h.brk, a) {
      if a != lo && (a != mid || mid == hi) { CutTag(h, m', lo, mid, hi, firstAlloc, secondAlloc, a); }
    }
  }

  /** Away from the cut nothing needs to be rewritten. */
  lemma CutCoherent(h: Heap, m': Memory, lo: int, mid: int, hi: int, firstAlloc: bool, secondAlloc: bool)
    requires RoomyCut(h, m', lo, mid, hi, firstAlloc, secondAlloc)
    requires var C := Cut(h.B, lo, mid, hi, firstAlloc, secondAlloc); TagOk(m', C, lo) && (mid < hi ==> TagOk(m', C, mid))
    ensures Coherent(AfterCut(h, m', lo, mid, hi, firstAlloc, secondAlloc))
  {
    hide Tag, TagOk, NoneIn, Cut, FreeList, SameFreeOutside;
    var C := Cut(h.B, lo, mid, hi, firstAlloc, secondAlloc);
    CutFacts(h.B, lo, mid, hi, firstAlloc, secondAlloc);
    CutTiled(h.B, h.brk, lo, mid, hi, firstAlloc, secondAlloc);
    CutTags(h, m', lo, mid, hi, firstAlloc, secondAlloc);
    CutFrees(h.B, lo, mid, hi, firstAlloc, secondAlloc);
    hide Tiled;
    ListElsewhere(h.m, m', h.seg[0], h.B, h.brk, C, h.L[0], lo, hi);
  }

  lemma CutFrees(B: Blocks, lo: int, mid: int, hi: int, firstAlloc: bool, secondAlloc: bool)
    requires CutOk(B, lo, mid, hi, firstAlloc, secondAlloc)
    ensures SameFreeOutside(B, Cut(B, lo, mid, hi, firstAlloc, secondAlloc), lo, hi)
  {
  }

  // ----- the writes

  lemma TwoTags(m: Memory, C: Blocks, lo: int, hi: int, prevAlloc: bool, alloc: bool)
    requires HasRoom(m, lo, hi - lo) && LEAST_BLOCK <= hi - lo && lo in C && C[lo] == Block(hi - lo, prevAlloc, alloc)
    ensures var r := WriteTwo(m, lo, hi - lo, Tag(hi - lo, alloc));
      TagOk(r, C, lo) && SameOutside(m, r, lo - 4, hi - 4) && SameWords(m, r, lo, hi - 8)
  {
    RoomCells(m, lo, hi - lo);
    CellsKept(m, WriteTwo(m, lo, hi - lo, Tag(hi - lo, alloc)));
    hide Get, Put, Tag, IsCell;
  }

  lemma OpenRoom(h: Heap, lo: int, hi: int)
    requires Coherent(h) && lo in h.B && hi in h.B && PROLOGUE < lo < hi
    ensures HasRoom(h.m, lo, hi - lo) && LEAST_BLOCK <= hi - lo && hi <= h.brk
    ensures CutOk(h.B, lo, hi, hi, false, false) && CutOk(h.B, lo, hi, hi, true, true)
  {
    hide Tiled, Tagged, FreeList, Large, TagOk, IsCell;
    TagAt(h, lo);
    TagAt(h, hi);
    Apart(h.B, h.brk, lo, hi);
    EightsApart(lo, hi);
  }

  lemma EightsApart(a: int, b: int)
    requires a % 8 == 0 && b % 8 == 0
    ensures (b - a) % 8 == 0
  {
  }

  /** One block from `lo` to `hi`. */
  ghost function Joined(h: Heap, lo: int, hi: int, alloc: bool): Heap {
    AfterCut(h, WriteTwo(h.m, lo, hi - lo, Tag(hi - lo, alloc)), lo, hi, hi, alloc, alloc)
  }

  lemma JoinCoherent(h: Heap, lo: int, hi: int, alloc: bool)
    requires Coherent(h) && lo in h.B && hi in h.B && PROLOGUE < lo < hi && NoneIn(h.L[0], lo, hi)
    ensures |h.L| == 1
    ensures var h1 := Joined(h, lo, hi, alloc);
      && Coherent(h1) && lo in h1.B && h1.B[lo] == Block(hi - lo, h.B[lo].prevAlloc, alloc)
      && hi in h1.B && h1.B[hi] == h.B[hi].(prevAlloc := alloc) && SameOutside(h.m, h1.m, lo - 4, hi - 4)
  {
    hide Tiled, Tagged, FreeList, Tag, NoneIn, Cut, SameOutside, WriteTwo, HasRoom, TagOk;
    OpenRoom(h, lo, hi);
    CutFacts(h.B, lo, hi, hi, alloc, alloc);
    TwoTags(h.m, Cut(h.B, lo, hi, hi, alloc, alloc), lo, hi, h.B[lo].prevAlloc, alloc);
    CutCoherent(h, WriteTwo(h.m, lo, hi - lo, Tag(hi - lo, alloc)), lo, hi, hi, alloc, alloc);
  }

  lemma JoinLive(h: Heap, lo: int, hi: int, alloc: bool, gone: int)
    requires Coherent(h) && lo in h.B && hi in h.B && PROLOGUE < lo < hi && NoneIn(h.L[0], lo, hi)
    requires forall a :: a in h.B && lo <= a < hi && h.B[a].alloc ==> a == gone
    requires gone == 0 || lo <= gone < hi
    ensures LiveChange(h, Joined(h, lo, hi, alloc), gone, if alloc then lo else 0)
  {
    JoinCoherent(h, lo, hi, alloc);
    OpenRoom(h, lo, hi);
    hide Tagged, FreeList, Tag, NoneIn, WriteTwo, HasRoom, LiveChange, AfterCut;
    SegMoves.CutLive(h, WriteTwo(h.m, lo, hi - lo, Tag(hi - lo, alloc)), lo, hi, hi, alloc, alloc, gone, if alloc then lo else 0);
  }

  /** Outside the stretch a block is free after the join exactly when it was before, and as tidy. */
  lemma JoinTidy(h: Heap, lo: int, hi: int, alloc: bool, a: int)
    requires |h.L| == 1 && lo in h.B && hi in h.B && PROLOGUE < lo < hi && IsFree(Joined(h, lo, hi, alloc).B, a) && a != lo
    ensures IsFree(h.B, a) && (a < lo || hi <= a)
    ensures Tidy(h, a) && (a != hi || alloc) ==> Tidy(Joined(h, lo, hi, alloc), a)
  {
  }

  /** What `coalesce` makes of an open stretch: a single free block, still to be put on the list. */
  lemma MergeStep(h: Heap, lo: int, hi: int)
    requires Open(h, lo, hi)
    ensures var h1 := Joined(h, lo, hi, false);
      Open(h1, lo, hi) && h1.B[lo] == Block(hi - lo, true, false) && LiveChange(h, h1, 0, 0)
  {
    hide Coherent, Joined, Tidy, NoneIn, LiveChange;
    JoinCoherent(h, lo, hi, false);
    JoinLive(h, lo, hi, false, 0);
    var h1 := Joined(h, lo, hi, false);
    SameRest(h, lo, hi, false);
    forall a | IsFree(h1.B, a) && (a < lo || hi <= a) ensures Tidy(h1, a) { JoinTidy(h, lo, hi, false, a); }
    JoinFree(h, lo, hi);
  }

  lemma SameRest(h: Heap, lo: int, hi: int, alloc: bool)
    ensures var h1 := Joined(h, lo, hi, alloc); h1.L == h.L && h1.seg == h.seg && h1.brk == h.brk && |h1.m| == |h.m|
  {
  }

  lemma JoinFree(h: Heap, lo: int, hi: int)
    requires lo in h.B && hi in h.B && lo < hi
    ensures SegMoves.AllFree(Joined(h, lo, hi, false).B, lo, hi)
  {
  }

  /** `mm_free` up to its call of `coalesce`. */
  lemma ReleaseStep(h: Heap, ptr: int)
    requires Settled(h) && IsLive(h, ptr)
    ensures var hi := ptr + h.B[ptr].size; var h1 := Joined(h, ptr, hi, false);
      Loose(h1, ptr) && h1.B[ptr].size == h.B[ptr].size && LiveChange(h, h1, ptr, 0)
  {
    hide Coherent, Joined, Tidy, NoneIn, LiveChange;
    var hi := ptr + h.B[ptr].size;
    LiveAlone(h, ptr);
    JoinCoherent(h, ptr, hi, false);
    JoinLive(h, ptr, hi, false, ptr);
    SameRest(h, ptr, hi, false);
    var h1 := Joined(h, ptr, hi, false);
    forall a | IsFree(h1.B, a) && a != ptr ensures a in h1.L[0] && (a == hi || Tidy(h1, a)) {
      JoinTidy(h, ptr, hi, false, a);
      assert Tidy(h, a);
      TidyListed(h, a);
    }
  }

  lemma TidyListed(h: Heap, a: int)
    requires |h.L| == 1 && Tidy(h, a)
    ensures a in h.L[0]
  {
  }

  lemma LiveAlone(h: Heap, ptr: int)
    requires Coherent(h) && IsLive(h, ptr)
    ensures var hi := ptr + h.B[ptr].size;
      && |h.L| == 1 && |h.seg| == 1 && hi in h.B && PROLOGUE < ptr < hi && NoneIn(h.L[0], ptr, hi) && ptr !in h.L[0]
      && forall a :: a in h.B && ptr <= a < hi ==> a == ptr
  {
    TagAt(h, ptr);
    BlockAlone(h, ptr);
  }

  /** A block that is not on the list makes a stretch without listed blocks. */
  lemma BlockAlone(h: Heap, a: int)
    requires Coherent(h) && a in h.B && a != h.brk && (h.B[a].alloc || a !in h.L[0])
    ensures NoneIn(h.L[0], a, a + h.B[a].size) && a !in h.L[0]
    ensures forall x :: x in h.B && a <= x < a + h.B[a].size ==> x == a
  {
    forall x | x in h.B && a <= x < a + h.B[a].size ensures x == a {
      if a < x { Apart(h.B, h.brk, a, x); }
    }
    forall k | 0 <= k < |h.L[0]| ensures h.L[0][k] < a || a + h.B[a].size <= h.L[0][k] {
      assert IsFree(h.B, h.L[0][k]);
    }
  }

  /** `place` without a split. */
  lemma TakeAllStep(h: Heap, lo: int, hi: int)
    requires Open(h, lo, hi)
    ensures var h1 := Joined(h, lo, hi, true);
      Settled(h1) && LiveChange(h, h1, 0, lo) && IsLive(h1, lo) && h1.B[lo].size == hi - lo
  {
    hide Coherent, Joined, Tidy, NoneIn, LiveChange;
    JoinCoherent(h, lo, hi, true);
    JoinLive(h, lo, hi, true, 0);
    SameRest(h, lo, hi, true);
    OpenRoom(h, lo, hi);
    var h1 := Joined(h, lo, hi, true);
    forall a | IsFree(h1.B, a) ensures Tidy(h1, a) { JoinTidy(h, lo, hi, true, a); }
  }

  /** An allocated block from `lo` to `mid`, a free one from there to `hi`. */
  ghost function Parted(h: Heap, lo: int, mid: int, hi: int): Heap {
    AfterCut(h, WriteTwo(WriteTwo(h.m, lo, mid - lo, Tag(mid - lo, true)), mid, hi - mid, Tag(hi - mid, false)), lo, mid, hi, true, false)
  }

  lemma PartCoherent(h: Heap, lo: int, mid: int, hi: int)
    requires Open(h, lo, hi) && mid % 8 == 0 && lo + LEAST_BLOCK <= mid && mid + LEAST_BLOCK <= hi
    ensures var h1 := Parted(h, lo, mid, hi);
      && Coherent(h1) && SameOutside(h.m, h1.m, lo - 4, hi - 4) && CutOk(h.B, lo, mid, hi, true, false)
      && lo in h1.B && h1.B[lo] == Block(mid - lo, true, true) && mid in h1.B && h1.B[mid] == Block(hi - mid, true, false)
      && hi in h1.B && h1.B[hi] == h.B[hi].(prevAlloc := false)
  {
    hide Tiled, Tagged, FreeList, Tag, NoneIn, Cut, SameWords, WriteTwo, TagOk, Tidy;
    OpenRoom(h, lo, hi);
    CutFacts(h.B, lo, mid, hi, true, false);
    var C := Cut(h.B, lo, mid, hi, true, false);
    RoomSplit(h.m, lo, mid, hi);
    var m1 := WriteTwo(h.m, lo, mid - lo, Tag(mid - lo, true));
    TwoTags(h.m, C, lo, mid, h.B[lo].prevAlloc, true);
    var m2 := WriteTwo(m1, mid, hi - mid, Tag(hi - mid, false));
    RoomKept(h.m, m1, mid, hi - mid);
    TwoTags(m1, C, mid, hi, true, false);
    TagBefore(m1, m2, C, lo, mid, hi);
    CutCoherent(h, m2, lo, mid, hi, true, false);
  }

  lemma RoomKept(m: Memory, m': Memory, a: int, size: int)
    requires HasRoom(m, a, size) && |m'| == |m|
    ensures HasRoom(m', a, size)
  {
  }

  lemma TagBefore(m: Memory, m': Memory, C: Blocks, lo: int, mid: int, hi: int)
    requires TagOk(m, C, lo) && SameOutside(m, m', mid - 4, hi - 4) && lo + C[lo].size == mid && 8 <= C[lo].size
    ensures TagOk(m', C, lo)
  {
    CellsKept(m, m');
    hide Get, Tag, IsCell;
  }

  /** `place` with a split. */
  lemma TakeFrontStep(h: Heap, lo: int, mid: int, hi: int)
    requires Open(h, lo, hi) && mid % 8 == 0 && lo + LEAST_BLOCK <= mid && mid + LEAST_BLOCK <= hi
    ensures var h1 := Parted(h, lo, mid, hi);
      && Open(h1, mid, hi) && h1.B[mid].size == hi - mid && LiveChange(h, h1, 0, lo) && IsLive(h1, lo) && h1.B[lo].size == mid - lo
  {
    PartCoherent(h, lo, mid, hi);
    OpenRoom(h, lo, hi);
    var h1 := Parted(h, lo, mid, hi);
    SegMoves.CutLive(h, h1.m, lo, mid, hi, true, false, 0, lo);
    hide Coherent, LiveChange, WriteTwo, Tag;
    NoneInLess(h.L[0], lo, mid, hi);
    hide NoneIn;
    assert mid < h1.brk;
    forall a | IsFree(h1.B, a) && (a < mid || hi <= a) ensures Tidy(h1, a) {
      assert IsFree(h.B, a) && (a < lo || hi <= a) && Tidy(h, a);
    }
  }

  lemma NoneInLess(s: seq<int>, lo: int, mid: int, hi: int)
    requires NoneIn(s, lo, hi) && lo <= mid
    ensures NoneIn(s, mid, hi)
  {
  }

  // ----- list steps

  lemma TagsUnderPtrs(m: Memory, m': Memory, B: Blocks, brk: int)
    requires Tiled(B, brk) && Large(B, brk) && Tagged(m, B) && OnlyPtrsDiffer(m, m', B)
    ensures Tagged(m', B)
  {
    hide Tag, Get, IsCell;
    CellsKept(m, m');
    forall a | a in B ensures TagOk(m', B, a) {
      assert TagOk(m, B, a);
      TileFacts(B, brk, a);
      NoPointer(B, brk, a, a - 4);
      if a != brk { NoPointer(B, brk, a, a + B[a].size - 8); }
    }
  }

  /** Neither a tag nor anything in an allocated block is a pointer of a free block. */
  lemma NoPointer(B: Blocks, brk: int, a: int, p: int)
    requires Tiled(B, brk) && Large(B, brk) && a in B
    requires p == a - 4 || (a != brk && p == a + B[a].size - 8) || (B[a].alloc && a <= p < a + B[a].size - 4)
    ensures !IsFree(B, p) && !IsFree(B, p - 4) && !IsFree(B, p - 8) && !IsFree(B, p - 12)
  {
    TileFacts(B, brk, a);
    forall b | IsFree(B, b) ensures !InLinks(b, p) {
      TileFacts(B, brk, b);
      if b < a { Apart(B, brk, b, a); } else if a < b { Apart(B, brk, a, b); }
    }
    assert InLinks(p, p) && InLinks(p - 4, p) && InLinks(p - 8, p) && InLinks(p - 12, p);
  }

  lemma PtrsQuiet(h: Heap, h1: Heap)
    requires Tiled(h.B, h.brk) && Large(h.B, h.brk) && OnlyPtrsDiffer(h.m, h1.m, h.B) && h1.B == h.B && h1.brk == h.brk
    ensures LiveChange(h, h1, 0, 0)
  {
    forall a | IsLive(h, a) ensures LiveKept(h, h1, a) {
      forall p | a <= p < a + h.B[a].size - 4 ensures Get(h1.m, p) == Get(h.m, p) { NoPointer(h.B, h.brk, a, p); }
    }
  }

  /** From `h` to `h1`, the block at `x` has left the list. */
  ghost predicate Left(h: Heap, h1: Heap, x: int) {
    && Coherent(h1) && h1.B == h.B && h1.brk == h.brk && |h1.m| == |h.m| && LiveChange(h, h1, 0, 0)
    && |h.L| == 1 && x !in h1.L[0] && forall b :: b != x ==> (b in h1.L[0] <==> b in h.L[0])
  }

  lemma UnlinkStep(h: Heap, h1: Heap, j: nat)
    requires Coherent(h) && j < |h.L[0]| && h1.B == h.B && h1.brk == h.brk
    requires h1.m == WriteUnlink(h.m, At(h.L[0], j - 1), At(h.L[0], j + 1)) && h1.L == [RemoveAt(h.L[0], j)]
    requires h1.seg == if j == 0 then [At(h.L[0], 1)] else h.seg
    ensures Left(h, h1, h.L[0][j])
  {
    UnlinkWritten(h.m, h.B, h.brk, h.L[0], j);
    UnlinkKeeps(h.m, h1.m, h.seg[0], h.B, h.brk, h.L[0], j);
    TagsUnderPtrs(h.m, h1.m, h.B, h.brk);
    PtrsQuiet(h, h1);
    RemoveAtMembers(h.L[0], j);
    hide Tiled, Tagged, FreeList, LiveChange, WriteUnlink, RemoveAt, OnlyPtrsDiffer, Large;
  }

  lemma RemoveAtMembers(s: seq<int>, j: nat)
    requires j < |s|
    ensures forall b :: b != s[j] ==> (b in RemoveAt(s, j) <==> b in s)
  {
    assert s == s[..j] + [s[j]] + s[j + 1..];
  }

  ghost function Pushed(h: Heap, a: int): Heap
    requires |h.seg| == 1 && |h.L| == 1
  {
    h.(m := WritePush(h.m, a, h.seg[0]), seg := [a], L := [[a] + h.L[0]])
  }

  /** Putting the one block of an open stretch on the list completes the call. */
  lemma PushStep(h: Heap, lo: int, hi: int)
    requires Open(h, lo, hi) && h.B[lo].size == hi - lo
    ensures Settled(Pushed(h, lo)) && LiveChange(h, Pushed(h, lo), 0, 0)
  {
    var h1 := Pushed(h, lo);
    var s := h.L[0];
    NotOnList(s, lo, hi);
    HeadNotNull(h);
    PushWritten(h.m, h.B, h.brk, s, lo);
    PushKeeps(h.m, h1.m, h.B, h.brk, s, lo);
    TagsUnderPtrs(h.m, h1.m, h.B, h.brk);
    PtrsQuiet(h, h1);
    forall a | IsFree(h1.B, a) ensures Tidy(h1, a) {
      if lo < a < hi { Apart(h.B, h.brk, lo, a); }
      assert a == lo || Tidy(h, a);
    }
    hide Tiled, Tagged, FreeList, LiveChange, WritePush, OnlyPtrsDiffer, Large, Tidy;
  }

  lemma NotOnList(s: seq<int>, lo: int, hi: int)
    requires NoneIn(s, lo, hi) && lo < hi
    ensures lo !in s
  {
  }

  lemma HeadNotNull(h: Heap)
    requires Coherent(h)
    ensures (h.L[0] != [] ==> At(h.L[0], 0) != 0) && h.seg[0] == At(h.L[0], 0)
    ensures forall k :: 0 <= k < |h.L[0]| ==> h.L[0][k] != 0
  {
    forall k | 0 <= k < |h.L[0]| ensures h.L[0][k] != 0 { FreeRoom(h.m, h.B, h.brk, h.L[0][k]); }
  }

  // ----- stretches that open

  /** A free block that has left the list. */
  lemma OpenTaken(h: Heap, h1: Heap, a: int)
    requires Settled(h) && IsFree(h.B, a) && Left(h, h1, a)
    ensures Open(h1, a, a + h.B[a].size)
  {
    FreeThenAllocated(h, a);
    TagAt(h, a);
    assert Tidy(h, a);
    BlockAlone(h1, a);
    forall x | IsFree(h1.B, x) && x != a ensures Tidy(h1, x) { assert Tidy(h, x); }
    hide Coherent, LiveChange, NoneIn;
  }

  /** `h1` is `h` but for the list, which has lost the blocks in `R` and no others. */
  ghost predicate LeftAll(h: Heap, h1: Heap, R: set<int>) {
    && Coherent(h1) && h1.B == h.B && h1.brk == h.brk && |h.L| == 1
    && forall b :: b in h1.L[0] <==> b in h.L[0] && b !in R
  }

  /** With its free neighbours off the list, a loose block opens up. */
  lemma OpenLoose(h: Heap, h1: Heap, bp: int, lo: int, hi: int, R: set<int>)
    requires Loose(h, bp) && LeftAll(h, h1, R) && bp !in R
    requires lo in h.B && hi in h.B && PROLOGUE < lo <= bp && bp + h.B[bp].size <= hi && h.B[lo].prevAlloc && h.B[hi].alloc
    requires forall a :: a in h.B && lo <= a < hi ==> a == bp || a in R
    requires forall x :: x in R ==> IsFree(h.B, x) && lo <= x < hi
    ensures Open(h1, lo, hi)
  {
    TagAt(h, bp);
    forall k | 0 <= k < |h1.L[0]| ensures h1.L[0][k] < lo || hi <= h1.L[0][k] {
      assert h1.L[0][k] in h1.L[0] && IsFree(h1.B, h1.L[0][k]);
    }
    forall a | IsFree(h1.B, a) && (a < lo || hi <= a) ensures Tidy(h1, a) {
      assert a != bp && a !in R && (a == bp + h.B[bp].size ==> a == hi);
      assert a in h.L[0] && (a == bp + h.B[bp].size || Tidy(h, a));
    }
    hide Coherent;
  }

  // ----- growth

  /** The writes of `extend_heap` up to its call of `coalesce`. */
  function WriteGrown(m: Memory, brk: int, brk': int): (r: Memory)
    ensures |r| == |m|
  {
    var m1 := PutPtr(PutPtr(Put(m, brk - 4, Tag(brk' - brk, false)), brk, 0), brk + 8, 0);
    Put(Put(m1, brk' - 8, Tag(brk' - brk, false)), brk' - 4, Tag(0, true))
  }

  lemma GrownWritten(m: Memory, brk: int, brk': int)
    requires HasRoom(m, brk, brk' - brk) && LEAST_BLOCK <= brk' - brk
    ensures var r := WriteGrown(m, brk, brk');
      && Get(r, brk - 4) == Get(r, brk' - 8) == Tag(brk' - brk, false) && Get(r, brk' - 4) == Tag(0, true)
      && SameOutside(m, r, brk - 4, brk')
      && IsCell(r, brk - 4) && IsCell(r, brk' - 8) && IsCell(r, brk' - 4)
  {
    RoomCells(m, brk, brk' - brk);
    CellsKept(m, WriteGrown(m, brk, brk'));
    var m0 := Put(m, brk - 4, Tag(brk' - brk, false));
    CellsKept(m, m0);
    PutPtrEffect(m0, brk, 0);
    var m1 := PutPtr(m0, brk, 0);
    CellsKept(m, m1);
    EightOn(m1, brk, brk' - brk);
    PutPtrEffect(m1, brk + 8, 0);
    CellsKept(m, PutPtr(m1, brk + 8, 0));
    CellsKept(m, Put(PutPtr(m1, brk + 8, 0), brk' - 8, Tag(brk' - brk, false)));
    hide Get, Put, PutPtr, IsCell, Tag, HasRoom;
  }

  lemma EightOn(m: Memory, a: int, size: int)
    requires HasRoom(m, a, size) && LEAST_BLOCK <= size
    ensures IsCell(m, a + 8) && IsCell(m, a + 12)
  {
  }

  ghost function Extended(h: Heap, brk': int): Heap {
    AfterGrowth(h, brk').(m := WriteGrown(h.m, h.brk, brk'))
  }

  lemma GrowStep(h: Heap, brk': int)
    requires Settled(h) && h.brk + LEAST_BLOCK <= brk' <= 4 * |h.m| && (brk' - h.brk) % 8 == 0
    ensures var h1 := Extended(h, brk');
      Loose(h1, h.brk) && h1.B[h.brk].size == brk' - h.brk && LiveChange(h, h1, 0, 0)
  {
    hide LiveChange, WriteGrown, Grown, Get, FreeList;
    var h1 := Extended(h, brk');
    BreakFacts(h.B, h.brk);
    GrownIsCut(h.B, h.brk, brk');
    GrownTiled(h.B, h.brk, brk');
    GrownWritten(h.m, h.brk, brk');
    GrowTags(h, brk');
    GrowList(h, brk');
    SegMoves.GrowthLive(h, h1, brk');
    GrowTidy(h, h1, brk');
    hide Tiled, Tagged, Tag;
  }

  lemma GrowTags(h: Heap, brk': int)
    requires Coherent(h) && h.brk + LEAST_BLOCK <= brk' <= 4 * |h.m| && (brk' - h.brk) % 8 == 0 && PROLOGUE < h.brk
    ensures var h1 := Extended(h, brk'); Tagged(h1.m, h1.B) && Large(h1.B, brk')
  {
    hide WriteGrown, Get, Tag, IsCell, FreeList, Tagged, Tiled, HasRoom;
    var h1 := Extended(h, brk');
    GrowRoom(h, brk');
    GrownWritten(h.m, h.brk, brk');
    CellsKept(h.m, h1.m);
    forall a | a in h1.B ensures TagOk(h1.m, h1.B, a) && LargeAt(h1.B, brk', a) {
      if a != h.brk && a != brk' {
        TagAt(h, a);
      }
    }
    assert Tagged(h1.m, h1.B) by { TagsTogether(h1.m, h1.B); }
  }

  lemma TagsTogether(m: Memory, B: Blocks)
    requires forall a :: a in B ==> TagOk(m, B, a)
    ensures Tagged(m, B)
  {
  }

  lemma GrowRoom(h: Heap, brk': int)
    requires Coherent(h) && h.brk + LEAST_BLOCK <= brk' <= 4 * |h.m| && (brk' - h.brk) % 8 == 0
    ensures HasRoom(h.m, h.brk, brk' - h.brk) && PROLOGUE < h.brk
  {
    BreakFacts(h.B, h.brk);
  }

  lemma GrowList(h: Heap, brk': int)
    requires Coherent(h) && h.brk + LEAST_BLOCK <= brk' <= 4 * |h.m| && (brk' - h.brk) % 8 == 0
    ensures var h1 := Extended(h, brk'); FreeList(h1.m, h1.seg[0], h1.B, h1.L[0]) && h.brk !in h.L[0]
    ensures forall k :: 0 <= k < |h.L[0]| ==> h.L[0][k] < h.brk
  {
    hide WriteGrown, Get, Tag, IsCell, Tagged, Tiled, HasRoom, Large;
    GrowRoom(h, brk');
    GrownWritten(h.m, h.brk, brk');
    var h1 := Extended(h, brk');
    forall k | 0 <= k < |h.L[0]| ensures PtrOk(h1.m, h1.L[0], k) && IsFree(h1.B, h1.L[0][k]) && h.L[0][k] < h.brk {
      assert PtrOk(h.m, h.L[0], k) && IsFree(h.B, h.L[0][k]);
      FreeRoom(h.m, h.B, h.brk, h.L[0][k]);
      PtrKept(h.m, h1.m, h.L[0][k]);
      PtrKept(h.m, h1.m, h.L[0][k] + 8);
    }
  }

  lemma GrowTidy(h: Heap, h1: Heap, brk': int)
    requires Settled(h) && PROLOGUE < h.brk < brk' && h1.B == Grown(h.B, h.brk, brk') && h1.L == h.L && h.brk in h.B
    ensures forall a :: IsFree(h1.B, a) && a != h.brk ==> Tidy(h1, a)
  {
    forall a | IsFree(h1.B, a) && a != h.brk ensures Tidy(h1, a) {
      assert Tidy(h, a);
    }
  }
}
