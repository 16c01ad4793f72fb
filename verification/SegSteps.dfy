/** One allocator state and the steps it takes: each writes a few words and moves from one sound
    state to the next.
 */
module SegSteps {
  import opened SegWords
  import opened SegLayout
  import opened SegLists

  /** The memory, the list heads and the break, with the blocks and lists they stand for. */
  datatype Heap = Heap(m: Memory, seg: seq<int>, brk: int, B: Blocks, L: Lists)

  // ----- headers

  ghost predicate HeaderOk(m: Memory, B: Blocks, a: int) {
    && a in B && IsCell(m, a - 4)
    && Get(m, a - 4) == Pack(B[a].size, B[a].prevAlloc, B[a].alloc)
    && (!B[a].alloc ==> SizeOf(Get(m, a + B[a].size - 8)) == B[a].size)
  }

  /** Every header, and the footer of every free block, is right, but for blocks from `lo` to `hi`. */
  ghost predicate Encoded(m: Memory, B: Blocks, lo: int, hi: int) {
    forall a {:trigger HeaderOk(m, B, a)} :: a in B && (a < lo || hi < a) ==> HeaderOk(m, B, a)
  }

  ghost predicate SoundBut(h: Heap, lo: int, hi: int) {
    && Tiled(h.B, h.brk) && Encoded(h.m, h.B, lo, hi) && Listed(h.m, h.seg, h.B, h.L)
  }

  /** Memory, tiling and lists agree. */
  ghost predicate Sound(h: Heap) {
    SoundBut(h, 1, 0)
  }

  lemma SoundButLess(h: Heap, lo: int, hi: int, lo': int, hi': int)
    requires SoundBut(h, lo, hi) && ((lo' <= lo && hi <= hi') || hi < lo)
    ensures SoundBut(h, lo', hi')
  {
    assert forall a :: a in h.B && (a < lo' || hi' < a) ==> HeaderOk(h.m, h.B, a);
  }

  lemma HeaderAt(h: Heap, lo: int, hi: int, a: int)
    requires SoundBut(h, lo, hi) && a in h.B && (a < lo || hi < a)
    ensures HeaderOk(h.m, h.B, a)
  {
  }

  lemma ReadHeader(h: Heap, lo: int, hi: int, a: int)
    requires SoundBut(h, lo, hi) && a in h.B && (a < lo || hi < a)
    ensures IsCell(h.m, a - 4) && a % 8 == 0 && 8 <= a <= h.brk
    ensures var w := Get(h.m, a - 4);
      SizeOf(w) == h.B[a].size && PrevBit(w) == h.B[a].prevAlloc && AllocBit(w) == h.B[a].alloc
  {
    TileFacts(h.B, h.brk, a);
    assert HeaderOk(h.m, h.B, a);
  }

  // ----- live blocks

  /** A block some caller holds. */
  ghost predicate IsLive(h: Heap, a: int) {
    a in h.B && h.B[a].alloc && PROLOGUE < a && a != h.brk
  }

  ghost predicate SameWords(m: Memory, m': Memory, lo: int, hi: int) {
    forall p {:trigger Get(m', p)} :: lo <= p < hi ==> Get(m', p) == Get(m, p)
  }

  ghost predicate LiveKept(h: Heap, h': Heap, a: int) {
    && IsLive(h, a) && IsLive(h', a) && h'.B[a].size == h.B[a].size
    && SameWords(h.m, h'.m, a, a + h.B[a].size - 4)
  }

  /** From `h` to `h'`, the callers' blocks lose `gone` and gain `came` (0 for none); all others
      keep their address, their size and every word of their contents. */
  ghost predicate LiveChange(h: Heap, h': Heap, gone: int, came: int) {
    && (forall a {:trigger LiveKept(h, h', a)} :: IsLive(h, a) && a != gone ==> LiveKept(h, h', a))
    && (forall a :: IsLive(h', a) ==> a == came || (IsLive(h, a) && a != gone))
  }

  lemma LiveChangeThenQuiet(h: Heap, h1: Heap, h2: Heap, gone: int, came: int)
    requires LiveChange(h, h1, gone, came) && LiveChange(h1, h2, 0, 0)
    ensures LiveChange(h, h2, gone, came)
  {
    forall a | IsLive(h, a) && a != gone ensures LiveKept(h, h2, a) {
      assert LiveKept(h, h1, a);
      assert LiveKept(h1, h2, a);
    }
  }

  lemma QuietThenLiveChange(h: Heap, h1: Heap, h2: Heap, gone: int, came: int)
    requires LiveChange(h, h1, 0, 0) && LiveChange(h1, h2, gone, came)
    ensures LiveChange(h, h2, gone, came)
  {
    forall a | IsLive(h, a) && a != gone ensures LiveKept(h, h2, a) {
      assert LiveKept(h, h1, a);
      assert LiveKept(h1, h2, a);
    }
  }

  // ----- cuts

  ghost predicate CutDone(h: Heap, m': Memory, lo: int, mid: int, hi: int, firstAlloc: bool, secondAlloc: bool) {
    && CutOk(h.B, lo, mid, hi, firstAlloc, secondAlloc)
    && SoundBut(h, lo, hi) && NoneListedIn(h.L, lo, hi)
    && SameOutside(h.m, m', lo - 4, hi)
  }

  ghost function AfterCut(h: Heap, m': Memory, lo: int, mid: int, hi: int, firstAlloc: bool, secondAlloc: bool): Heap {
    h.(m := m', B := Cut(h.B, lo, mid, hi, firstAlloc, secondAlloc))
  }

  /** Away from the cut nothing needs to be rewritten. */
  lemma CutSound(h: Heap, m': Memory, lo: int, mid: int, hi: int, firstAlloc: bool, secondAlloc: bool)
    requires CutDone(h, m', lo, mid, hi, firstAlloc, secondAlloc)
    requires var C := Cut(h.B, lo, mid, hi, firstAlloc, secondAlloc);
      HeaderOk(m', C, lo) && HeaderOk(m', C, hi)
    ensures var h' := AfterCut(h, m', lo, mid, hi, firstAlloc, secondAlloc);
      && SoundBut(h', mid, mid)
      && (HeaderOk(m', h'.B, mid) ==> Sound(h'))
  {
    var C := Cut(h.B, lo, mid, hi, firstAlloc, secondAlloc);
    CutTiled(h.B, h.brk, lo, mid, hi, firstAlloc, secondAlloc);
    forall a | a in C && a != mid ensures HeaderOk(m', C, a) {
      if a != lo && a != hi {
        CutHeader(h, m', lo, mid, hi, firstAlloc, secondAlloc, a);
      }
    }
    ListedElsewhere(h.m, m', h.seg, h.B, h.brk, C, h.L, lo, hi);
  }

  lemma CutHeader(h: Heap, m': Memory, lo: int, mid: int, hi: int, firstAlloc: bool, secondAlloc: bool, a: int)
    requires CutDone(h, m', lo, mid, hi, firstAlloc, secondAlloc)
    requires a in Cut(h.B, lo, mid, hi, firstAlloc, secondAlloc) && a != lo && a != mid && a != hi
    ensures HeaderOk(m', Cut(h.B, lo, mid, hi, firstAlloc, secondAlloc), a)
  {
    hide Get, Pack, SizeOf, Listed, NoneListedIn, Tiled, Encoded, HeaderOk, SameOutside;
    var C := Cut(h.B, lo, mid, hi, firstAlloc, secondAlloc);
    HeaderAt(h, lo, hi, a);
    TileFacts(h.B, h.brk, a);
    TileFacts(h.B, h.brk, lo);
    TileFacts(h.B, h.brk, hi);
    if a < lo {
      Apart(h.B, h.brk, a, lo);
    }
    assert C[a] == h.B[a];
    HeaderUnmoved(h.m, m', h.B, C, a, lo, hi);
  }

  lemma HeaderUnmoved(m: Memory, m': Memory, B: Blocks, C: Blocks, a: int, lo: int, hi: int)
    requires HeaderOk(m, B, a) && a in C && C[a] == B[a] && SameOutside(m, m', lo - 4, hi)
    requires (a < lo && a + B[a].size <= lo) || hi + 4 <= a
    requires !B[a].alloc ==> 16 <= B[a].size
    requires 0 <= B[a].size
    ensures HeaderOk(m', C, a)
  {
    hide Get, Pack, SizeOf;
  }

  /** The header at `a` has had its prev_alloc bit set, and nothing behind it has changed. */
  ghost predicate NextMarked(m: Memory, m': Memory, a: int, prevAlloc: bool) {
    && |m'| == |m| && Get(m', a - 4) == WithPrev(Get(m, a - 4), prevAlloc)
    && forall q :: q >= a ==> Get(m', q) == Get(m, q)
  }

  lemma NextHeader(m: Memory, m': Memory, B: Blocks, brk: int, C: Blocks, a: int, prevAlloc: bool)
    requires Tiled(B, brk) && HeaderOk(m, B, a) && a in C && C[a] == B[a].(prevAlloc := prevAlloc)
    requires NextMarked(m, m', a, prevAlloc)
    ensures HeaderOk(m', C, a)
  {
    TileFacts(B, brk, a);
    WithPrevOfPack(B[a].size, B[a].prevAlloc, prevAlloc, B[a].alloc);
    hide Get, Pack, WithPrev, SizeOf;
  }

  lemma RoomFor(h: Heap, lo: int, hi: int)
    requires Tiled(h.B, h.brk) && lo in h.B && hi in h.B && PROLOGUE < lo < hi && h.brk <= 4 * |h.m|
    ensures HasRoom(h.m, lo, hi - lo)
  {
    TileFacts(h.B, h.brk, lo);
    TileFacts(h.B, h.brk, hi);
  }

  // ----- the writes

  lemma RoomSplit(m: Memory, lo: int, mid: int, hi: int)
    requires HasRoom(m, lo, hi - lo) && mid % 8 == 0 && lo + 8 <= mid && mid + 8 <= hi
    ensures HasRoom(m, lo, mid - lo) && HasRoom(m, mid, hi - mid)
  {
  }

  lemma FreeHeaders(m: Memory, m': Memory, C: Blocks, lo: int, hi: int, prevAlloc: bool)
    requires HasRoom(m, lo, hi - lo) && 16 <= hi - lo
    requires lo in C && C[lo] == Block(hi - lo, prevAlloc, false)
    requires m' == WriteFree(m, lo, hi - lo, prevAlloc)
    ensures HeaderOk(m', C, lo) && SameOutside(m, m', lo - 4, hi) && NextMarked(m, m', hi, false)
  {
    RoomCells(m, lo, hi - lo);
    CellsKept(m, m');
    assert (hi - lo) % 8 == 0;
    hide Get, Pack, WithPrev, WriteFree, HasRoom, IsCell, SizeOf;
    WriteFreeEffect(m, lo, hi - lo, prevAlloc);
  }

  lemma AllocHeaders(m: Memory, m': Memory, C: Blocks, lo: int, hi: int, prevAlloc: bool)
    requires HasRoom(m, lo, hi - lo)
    requires lo in C && C[lo] == Block(hi - lo, prevAlloc, true)
    requires m' == WriteAlloc(m, lo, hi - lo, prevAlloc)
    ensures HeaderOk(m', C, lo) && SameOutside(m, m', lo - 4, hi) && NextMarked(m, m', hi, true)
    ensures SameWords(m, m', lo, hi - 4)
  {
    RoomCells(m, lo, hi - lo);
    CellsKept(m, m');
    hide Get, Pack, WithPrev, WriteAlloc, HasRoom, IsCell;
    WriteAllocEffect(m, lo, hi - lo, prevAlloc);
  }

  /** What two writers do in a row: an allocated block from `lo` to `mid`, a free one from there to `hi`. */
  function WriteSplit(m: Memory, lo: int, mid: int, hi: int, prevAlloc: bool): Memory {
    WriteFree(WriteAlloc(m, lo, mid - lo, prevAlloc), mid, hi - mid, true)
  }

  lemma SplitHeaders(m: Memory, m': Memory, C: Blocks, lo: int, mid: int, hi: int, prevAlloc: bool)
    requires HasRoom(m, lo, hi - lo) && mid % 8 == 0 && lo + 8 <= mid && mid + 16 <= hi
    requires lo in C && C[lo] == Block(mid - lo, prevAlloc, true)
    requires mid in C && C[mid] == Block(hi - mid, true, false)
    requires m' == WriteSplit(m, lo, mid, hi, prevAlloc)
    ensures HeaderOk(m', C, lo) && HeaderOk(m', C, mid) && SameOutside(m, m', lo - 4, hi)
    ensures NextMarked(m, m', hi, false) && SameWords(m, m', lo, mid - 4)
  {
    hide Get, Pack, WithPrev, WriteAlloc, WriteFree;
    RoomSplit(m, lo, mid, hi);
    var m1 := WriteAlloc(m, lo, mid - lo, prevAlloc);
    AllocHeaders(m, m1, C, lo, mid, prevAlloc);
    FreeHeaders(m1, m', C, mid, hi, true);
  }

  /** `write_free_block` over the blocks from `lo` to `hi`, none of them on a list. */
  lemma FreeStep(h: Heap, lo: int, hi: int)
    requires SoundBut(h, lo, hi - 1) && NoneListedIn(h.L, lo, hi) && h.brk <= 4 * |h.m|
    requires CutOk(h.B, lo, hi, hi, false, false)
    ensures var m' := WriteFree(h.m, lo, hi - lo, PrevOf(h.B, lo));
      && SameOutside(h.m, m', lo - 4, hi)
      && Sound(AfterCut(h, m', lo, hi, hi, false, false))
  {
    CutFacts(h.B, lo, hi, hi, false, false);
    RoomFor(h, lo, hi);
    hide Get, Tiled, Encoded, Listed, NoneListedIn, WriteFree, Cut, PrevOf, HeaderOk, SameOutside, NextMarked, HasRoom, CutOk;
    var m' := WriteFree(h.m, lo, hi - lo, PrevOf(h.B, lo));
    var C := Cut(h.B, lo, hi, hi, false, false);
    FreeHeaders(h.m, m', C, lo, hi, PrevOf(h.B, lo));
    HeaderAt(h, lo, hi - 1, hi);
    NextHeader(h.m, m', h.B, h.brk, C, hi, false);
    SoundButLess(h, lo, hi - 1, lo, hi);
    CutSound(h, m', lo, hi, hi, false, false);
  }

  /** `write_alloc_block` over the blocks from `lo` to `hi`, none of them on a list. */
  lemma AllocStep(h: Heap, lo: int, hi: int)
    requires SoundBut(h, lo, hi - 1) && NoneListedIn(h.L, lo, hi) && h.brk <= 4 * |h.m|
    requires CutOk(h.B, lo, hi, hi, true, true)
    ensures var m' := WriteAlloc(h.m, lo, hi - lo, PrevOf(h.B, lo));
      && SameOutside(h.m, m', lo - 4, hi) && SameWords(h.m, m', lo, hi - 4)
      && Sound(AfterCut(h, m', lo, hi, hi, true, true))
  {
    CutFacts(h.B, lo, hi, hi, true, true);
    RoomFor(h, lo, hi);
    hide Get, Tiled, Encoded, Listed, NoneListedIn, WriteAlloc, Cut, PrevOf, HeaderOk, SameOutside, SameWords, NextMarked, HasRoom, CutOk;
    var m' := WriteAlloc(h.m, lo, hi - lo, PrevOf(h.B, lo));
    var C := Cut(h.B, lo, hi, hi, true, true);
    AllocHeaders(h.m, m', C, lo, hi, PrevOf(h.B, lo));
    HeaderAt(h, lo, hi - 1, hi);
    NextHeader(h.m, m', h.B, h.brk, C, hi, true);
    SoundButLess(h, lo, hi - 1, lo, hi);
    CutSound(h, m', lo, hi, hi, true, true);
  }

  lemma SplitStep(h: Heap, lo: int, mid: int, hi: int)
    requires SoundBut(h, lo, hi - 1) && NoneListedIn(h.L, lo, hi) && h.brk <= 4 * |h.m|
    requires CutOk(h.B, lo, mid, hi, true, false) && lo + 8 <= mid < hi
    ensures var m' := WriteSplit(h.m, lo, mid, hi, PrevOf(h.B, lo));
      && SameOutside(h.m, m', lo - 4, hi) && SameWords(h.m, m', lo, mid - 4)
      && Sound(AfterCut(h, m', lo, mid, hi, true, false))
  {
    CutFacts(h.B, lo, mid, hi, true, false);
    RoomFor(h, lo, hi);
    assert mid % 8 == 0 && mid + 16 <= hi;
    hide Get, Tiled, Encoded, Listed, NoneListedIn, WriteSplit, Cut, PrevOf, HeaderOk, SameOutside, SameWords, NextMarked, HasRoom, CutOk;
    var m' := WriteSplit(h.m, lo, mid, hi, PrevOf(h.B, lo));
    var C := Cut(h.B, lo, mid, hi, true, false);
    SplitHeaders(h.m, m', C, lo, mid, hi, PrevOf(h.B, lo));
    HeaderAt(h, lo, hi - 1, hi);
    NextHeader(h.m, m', h.B, h.brk, C, hi, false);
    SoundButLess(h, lo, hi - 1, lo, hi);
    CutSound(h, m', lo, mid, hi, true, false);
  }

  /** The free block at `lo` shortened to end at `mid`: what follows has no header yet. */
  lemma ShortenStep(h: Heap, lo: int, mid: int, hi: int)
    requires Sound(h) && NoneListedIn(h.L, lo, hi) && h.brk <= 4 * |h.m|
    requires CutOk(h.B, lo, mid, hi, false, false) && mid < hi && !h.B[hi].prevAlloc
    ensures var m' := WriteFree(h.m, lo, mid - lo, PrevOf(h.B, lo));
      && SameOutside(h.m, m', lo - 4, mid)
      && SoundBut(AfterCut(h, m', lo, mid, hi, false, false), mid, mid)
  {
    CutFacts(h.B, lo, mid, hi, false, false);
    RoomFor(h, lo, hi);
    RoomSplit(h.m, lo, mid, hi);
    assert 16 <= mid - lo && mid + 16 <= hi;
    TileFacts(h.B, h.brk, hi);
    assert 0 <= h.B[hi].size && (!h.B[hi].alloc ==> 16 <= h.B[hi].size);
    hide Get, Tiled, TileOk, Encoded, Listed, NoneListedIn, WriteFree, Cut, PrevOf, HeaderOk, SameOutside, NextMarked, HasRoom, CutOk;
    var m' := WriteFree(h.m, lo, mid - lo, PrevOf(h.B, lo));
    var C := Cut(h.B, lo, mid, hi, false, false);
    FreeHeaders(h.m, m', C, lo, mid, PrevOf(h.B, lo));
    HeaderAt(h, 1, 0, hi);
    HeaderUnmoved(h.m, m', h.B, C, hi, lo, mid);
    SameOutsideLess(h.m, m', lo - 4, mid, lo - 4, hi);
    SoundButLess(h, 1, 0, lo, hi);
    CutSound(h, m', lo, mid, hi, false, false);
  }

  lemma SameOutsideLess(m: Memory, m': Memory, lo: int, hi: int, lo': int, hi': int)
    requires SameOutside(m, m', lo, hi) && lo' <= lo && hi <= hi'
    ensures SameOutside(m, m', lo', hi')
  {
  }

  // ----- growth

  /** The state right after `mem_sbrk`: a free block without header at the old break, and an
      epilogue that is still to be written. */
  ghost function AfterGrowth(h: Heap, brk': int): Heap {
    h.(brk := brk', B := Grown(h.B, h.brk, brk'))
  }

  lemma GrowthSound(h: Heap, brk': int)
    requires Sound(h) && h.brk + 16 <= brk' && (brk' - h.brk) % 8 == 0
    ensures SoundBut(AfterGrowth(h, brk'), h.brk, brk')
    ensures NoneListedIn(h.L, h.brk, brk')
  {
    var h1 := AfterGrowth(h, brk');
    GrownTiled(h.B, h.brk, brk');
    BreakFacts(h.B, h.brk);
    forall a | a in h1.B && (a < h.brk || brk' < a) ensures HeaderOk(h1.m, h1.B, a) {
      assert HeaderOk(h.m, h.B, a);
    }
    NotListedByClass(h.m, h.seg, h.B, h.L, h.brk);
    forall i, a | 0 <= i < |h.L| && a in h.L[i] ensures a < h.brk {
      ListFacts(h.m, h.seg, h.B, h.L, i);
      assert forall k :: 0 <= k < |h.L[i]| ==> IsMember(h.B, h.L[i][k], i);
      TileFacts(h.B, h.brk, a);
    }
    BlockNotListed(h.m, h.seg, h.B, h.brk, h.L, h.brk);
    ListedElsewhere(h.m, h.m, h.seg, h.B, h.brk, h1.B, h.L, h.brk, h.brk);
  }

  /** The write of a new epilogue header. */
  function WriteEpilogue(m: Memory, brk: int, prevAlloc: bool): Memory {
    Put(m, brk - 4, Pack(0, prevAlloc, true))
  }

  lemma GrownFreeHeaders(m: Memory, m': Memory, C: Blocks, lo: int, brk': int, prevAlloc: bool)
    requires lo in C && brk' in C && C[lo] == Block(brk' - lo, prevAlloc, false) && C[brk'] == Block(0, false, true)
    requires HasRoom(m, lo, brk' - lo) && 16 <= brk' - lo
    requires m' == WriteEpilogue(WriteFree(m, lo, brk' - lo, prevAlloc), brk', false)
    ensures HeaderOk(m', C, lo) && HeaderOk(m', C, brk') && SameOutside(m, m', lo - 4, brk')
  {
    hide Get, WriteFree, WriteEpilogue, NextMarked, HasRoom, HeaderOk, IsCell;
    var m1 := WriteFree(m, lo, brk' - lo, prevAlloc);
    FreeHeaders(m, m1, C, lo, brk', prevAlloc);
    LastCell(m, m1, lo, brk');
    EpilogueAlone(m1, C, lo, brk', false);
  }

  lemma GrownAllocHeaders(m: Memory, m': Memory, C: Blocks, lo: int, brk': int, prevAlloc: bool)
    requires lo in C && brk' in C && C[lo] == Block(brk' - lo, prevAlloc, true) && C[brk'] == Block(0, true, true)
    requires HasRoom(m, lo, brk' - lo) && 16 <= brk' - lo
    requires m' == WriteEpilogue(WriteAlloc(m, lo, brk' - lo, prevAlloc), brk', true)
    ensures HeaderOk(m', C, lo) && HeaderOk(m', C, brk') && SameOutside(m, m', lo - 4, brk')
    ensures SameWords(m, m', lo, brk' - 4)
  {
    hide Get, WriteAlloc, WriteEpilogue, NextMarked, HasRoom, HeaderOk, IsCell;
    var m1 := WriteAlloc(m, lo, brk' - lo, prevAlloc);
    AllocHeaders(m, m1, C, lo, brk', prevAlloc);
    LastCell(m, m1, lo, brk');
    EpilogueAlone(m1, C, lo, brk', true);
  }

  lemma LastCell(m: Memory, m1: Memory, lo: int, hi: int)
    requires HasRoom(m, lo, hi - lo) && |m1| == |m|
    ensures IsCell(m1, hi - 4)
  {
  }

  lemma EpilogueAlone(m: Memory, C: Blocks, lo: int, brk': int, prevAlloc: bool)
    requires lo in C && brk' in C && C[brk'] == Block(0, prevAlloc, true) && lo + C[lo].size == brk' && 16 <= C[lo].size
    requires HeaderOk(m, C, lo) && IsCell(m, brk' - 4)
    ensures var m' := WriteEpilogue(m, brk', prevAlloc);
      && |m'| == |m| && (forall q :: q != brk' - 4 ==> Get(m', q) == Get(m, q))
      && HeaderOk(m', C, lo) && HeaderOk(m', C, brk')
  {
    hide Get, Put, Pack, SizeOf;
  }

  lemma BreakIsEight(h: Heap, brk': int)
    requires Sound(h) && (brk' - h.brk) % 8 == 0
    ensures PROLOGUE < h.brk && h.brk % 8 == 0 && brk' % 8 == 0
  {
    BreakFacts(h.B, h.brk);
    var x, y := h.brk / 8, (brk' - h.brk) / 8;
    assert brk' == 8 * (x + y);
  }

  /** `extend_heap` up to its `coalesce`: the new memory becomes one free block. */
  lemma GrowFreeStep(h: Heap, brk': int)
    requires Sound(h) && h.brk + 16 <= brk' <= 4 * |h.m| && (brk' - h.brk) % 8 == 0
    ensures var m' := WriteEpilogue(WriteFree(h.m, h.brk, brk' - h.brk, PrevOf(h.B, h.brk)), brk', false);
      && SameOutside(h.m, m', h.brk - 4, brk')
      && Sound(AfterGrowth(h, brk').(m := m'))
  {
    hide HeaderOk, Get, SameOutside, Tiled, Encoded, Listed, NoneListedIn, WriteFree, WriteEpilogue, Cut, CutOk, Grown, PrevOf, HasRoom;
    BreakIsEight(h, brk');
    GrownIsCut(h.B, h.brk, brk');
    var h1 := AfterGrowth(h, brk');
    GrowthSound(h, brk');
    RoomFor(h1, h.brk, brk');
    var m' := WriteEpilogue(WriteFree(h.m, h.brk, brk' - h.brk, PrevOf(h.B, h.brk)), brk', false);
    GrownFreeHeaders(h.m, m', h1.B, h.brk, brk', PrevOf(h.B, h.brk));
    CutSound(h1, m', h.brk, brk', brk', false, false);
  }

  /** Growing the heap and the block at `lo` with it, over everything up to the new break. */
  lemma GrowAllocStep(h: Heap, lo: int, brk': int)
    requires Sound(h) && h.brk + 16 <= brk' <= 4 * |h.m| && (brk' - h.brk) % 8 == 0
    requires lo in h.B && PROLOGUE < lo < h.brk && NoneListedIn(h.L, lo, h.brk)
    ensures var m' := WriteEpilogue(WriteAlloc(h.m, lo, brk' - lo, PrevOf(h.B, lo)), brk', true);
      && SameOutside(h.m, m', lo - 4, brk') && SameWords(h.m, m', lo, brk' - 4)
      && Sound(AfterCut(AfterGrowth(h, brk'), m', lo, brk', brk', true, true))
  {
    assert NoneListedIn(h.L, lo, brk') by { GrowthSound(h, brk'); }
    var h1 := AfterGrowth(h, brk');
    GrowthSound(h, brk');
    RoomFor(h1, lo, brk');
    GrownCutFacts(h.B, h.brk, lo, brk');
    hide HeaderOk, Get, SameOutside, SameWords, Tiled, Encoded, Listed, NoneListedIn, WriteAlloc, WriteEpilogue, Cut, CutOk, Grown, PrevOf, HasRoom;
    var m' := WriteEpilogue(WriteAlloc(h.m, lo, brk' - lo, PrevOf(h.B, lo)), brk', true);
    GrownAllocHeaders(h.m, m', Cut(h1.B, lo, brk', brk', true, true), lo, brk', PrevOf(h.B, lo));
    SoundButLess(h1, h.brk, brk', lo, brk');
    CutSound(h1, m', lo, brk', brk', true, true);
  }
}
