module SegSpace {
  // The space between the prologue and the break belongs to the callers or to free blocks, and which is which
  // is settled by what the callers hold: nothing is ever lost. Both allocators are of this kind.

  import opened SegWords
  import opened SegLayout
  import opened SegLists
  import opened SegSteps
  import opened SegMoves

  ghost function Range(lo: int, hi: int): set<int>
    decreases hi - lo
  {
    if hi <= lo then {} else Range(lo, hi - 1) + {hi - 1}
  }

  lemma {:induction false} RangeIs(lo: int, hi: int)
    ensures forall x :: x in Range(lo, hi) <==> lo <= x < hi
    ensures |Range(lo, hi)| == if lo < hi then hi - lo else 0
    decreases hi - lo
  {
    if lo < hi { RangeIs(lo, hi - 1); }
  }

  lemma InBlock(B: Blocks, a: int)
    ensures forall x :: x in BlockSpace(B, a) <==> a in B && a <= x < a + B[a].size
    ensures a in B && B[a].size >= 0 ==> |BlockSpace(B, a)| == B[a].size
  {
    if a in B { RangeIs(a, a + B[a].size); }
  }

  ghost function BlockSpace(B: Blocks, a: int): set<int> {
    if a in B then Range(a, a + B[a].size) else {}
  }

  /** The addresses inside the callers' blocks. */
  ghost function LiveSpace(h: Heap): set<int> {
    set a, x | a in h.B && IsLive(h, a) && x in BlockSpace(h.B, a) :: x
  }

  /** The addresses inside free blocks. */
  ghost function FreeSpace(h: Heap): set<int> {
    set a, x | a in h.B && IsFree(h.B, a) && x in BlockSpace(h.B, a) :: x
  }

  /** The blocks tile the heap, and no free block follows another. */
  ghost predicate Merged(h: Heap) {
    Tiled(h.B, h.brk) && forall a :: IsFree(h.B, a) ==> h.B[a].prevAlloc
  }

  lemma ReadyIsMerged(h: Heap)
    requires Ready(h)
    ensures Merged(h) && forall a :: IsFree(h.B, a) ==> a in h.L[ListIndex(h.B[a].size)]
  {
    forall a | IsFree(h.B, a) ensures TidyAt(h.B, h.L, a) { TidyFacts(h, a); }
  }

  lemma AfterMerged(h: Heap, a: int)
    requires Merged(h) && IsFree(h.B, a)
    ensures a + h.B[a].size in h.B && h.B[a + h.B[a].size].alloc && 16 <= h.B[a].size && PROLOGUE < a
  {
    TileFacts(h.B, h.brk, a);
    var next := a + h.B[a].size;
    assert h.B[next].alloc || IsFree(h.B, next);
  }

  /** The block in which an address lies. */
  lemma Covering(B: Blocks, brk: int, x: int) returns (a: int)
    requires Tiled(B, brk) && PROLOGUE <= x < brk
    ensures a in B && a != brk && a <= x < a + B[a].size
  {
    a := PROLOGUE;
    TileFacts(B, brk, a);
    while a + B[a].size <= x
      invariant a in B && a <= x
      decreases x - a
    {
      TileFacts(B, brk, a);
      a := a + B[a].size;
    }
    TileFacts(B, brk, a);
  }

  /** Callers' space and free space are apart and together all there is. */
  lemma SpaceIsShared(h: Heap)
    requires Merged(h)
    ensures LiveSpace(h) !! FreeSpace(h) && LiveSpace(h) + FreeSpace(h) == Range(PROLOGUE + 8, h.brk)
  {
    RangeIs(PROLOGUE + 8, h.brk);
    forall x | PROLOGUE + 8 <= x < h.brk ensures x in LiveSpace(h) + FreeSpace(h) { InOneOfThem(h, x); }
    forall x | x in LiveSpace(h) + FreeSpace(h) ensures PROLOGUE + 8 <= x < h.brk { BlocksInside(h, x); }
    forall x | x in LiveSpace(h) ensures x !in FreeSpace(h) { NotInBoth(h, x); }
    hide Merged;
  }

  lemma InOneOfThem(h: Heap, x: int)
    requires Merged(h) && PROLOGUE + 8 <= x < h.brk
    ensures x in LiveSpace(h) + FreeSpace(h)
  {
    var a := Covering(h.B, h.brk, x);
    InBlock(h.B, a);
    assert x in BlockSpace(h.B, a);
    TileFacts(h.B, h.brk, a);
    if IsFree(h.B, a) {
      assert x in FreeSpace(h);
    } else {
      assert IsLive(h, a);
      assert x in LiveSpace(h);
    }
    hide Merged;
  }

  lemma InsideHeap(h: Heap, a: int)
    requires Merged(h) && (IsLive(h, a) || IsFree(h.B, a))
    ensures PROLOGUE + 8 <= a && a + h.B[a].size <= h.brk
  {
    TileFacts(h.B, h.brk, a);
    BreakFacts(h.B, h.brk);
    Apart(h.B, h.brk, a, h.brk);
    Apart(h.B, h.brk, PROLOGUE, a);
  }

  lemma BlocksInside(h: Heap, x: int)
    requires Merged(h) && (x in LiveSpace(h) || x in FreeSpace(h))
    ensures PROLOGUE + 8 <= x < h.brk
  {
    hide Merged, Range;
    var a :| a in h.B && (IsLive(h, a) || IsFree(h.B, a)) && x in BlockSpace(h.B, a);
    InBlock(h.B, a);
    InsideHeap(h, a);
  }

  lemma NotInBoth(h: Heap, x: int)
    requires Merged(h) && x in LiveSpace(h)
    ensures x !in FreeSpace(h)
  {
    var a :| a in h.B && IsLive(h, a) && x in BlockSpace(h.B, a);
    InBlock(h.B, a);
    forall b | b in h.B && IsFree(h.B, b) ensures x !in BlockSpace(h.B, b) {
      InBlock(h.B, b);
      if a < b { Apart(h.B, h.brk, a, b); } else if b < a { Apart(h.B, h.brk, b, a); }
    }
  }

  // ----- what a call does to the space

  ghost predicate Trades(h: Heap, h1: Heap, gone: int, came: int) {
    && Merged(h) && Merged(h1) && LiveChange(h, h1, gone, came) && h.brk <= h1.brk
    && (gone == 0 || IsLive(h, gone)) && (came == 0 || (IsLive(h1, came) && (came == gone || !IsLive(h, came))))
  }

  /** The callers hold what they held, without the block given up and with the one gained. */
  lemma LiveSpaceAfter(h: Heap, h1: Heap, gone: int, came: int)
    requires Trades(h, h1, gone, came)
    ensures LiveSpace(h1) == LiveSpace(h) - BlockSpace(h.B, gone) + BlockSpace(h1.B, came)
  {
    NullHasNoSpace(h);
    NullHasNoSpace(h1);
    forall x | x in LiveSpace(h1) ensures x in LiveSpace(h) - BlockSpace(h.B, gone) + BlockSpace(h1.B, came) {
      var a :| a in h1.B && IsLive(h1, a) && x in BlockSpace(h1.B, a);
      if a != came {
        assert LiveKept(h, h1, a);
        OneBlockEach(h, a, gone, x);
        assert x in BlockSpace(h.B, a);
      }
    }
    forall x | x in LiveSpace(h) - BlockSpace(h.B, gone) + BlockSpace(h1.B, came) ensures x in LiveSpace(h1) {
      if x in BlockSpace(h1.B, came) {
        assert came in h1.B;
      } else {
        var a :| a in h.B && IsLive(h, a) && x in BlockSpace(h.B, a);
        assert LiveKept(h, h1, a);
        assert x in BlockSpace(h1.B, a);
      }
    }
    hide Merged;
  }

  lemma NullHasNoSpace(h: Heap)
    requires Merged(h)
    ensures 0 !in h.B
  {
    if 0 in h.B { TileFacts(h.B, h.brk, 0); }
  }

  lemma OneBlockEach(h: Heap, a: int, b: int, x: int)
    requires Merged(h) && IsLive(h, a) && a != b && x in BlockSpace(h.B, a)
    ensures x !in BlockSpace(h.B, b)
  {
    InBlock(h.B, a);
    InBlock(h.B, b);
    if b in h.B {
      if a < b { Apart(h.B, h.brk, a, b); } else { Apart(h.B, h.brk, b, a); }
    }
  }

  /** What the callers give up becomes free space, what they gain stops being free space, and what the heap
      grows by is free space first: nothing else changes. */
  lemma FreeSpaceAfter(h: Heap, h1: Heap, gone: int, came: int)
    requires Trades(h, h1, gone, came)
    ensures FreeSpace(h1) == FreeSpace(h) + Range(h.brk, h1.brk) + BlockSpace(h.B, gone) - BlockSpace(h1.B, came)
  {
    hide Merged, LiveChange, LiveSpace, FreeSpace, BlockSpace, Range;
    SpaceIsShared(h);
    SpaceIsShared(h1);
    LiveSpaceAfter(h, h1, gone, came);
    GoneIsHeld(h, gone);
    GoneIsHeld(h1, came);
    AfterPrologue(h);
    RangesJoin(PROLOGUE + 8, h.brk, h1.brk);
    Rest(LiveSpace(h), FreeSpace(h), LiveSpace(h1), FreeSpace(h1), BlockSpace(h.B, gone), BlockSpace(h1.B, came),
         Range(PROLOGUE + 8, h.brk), Range(PROLOGUE + 8, h1.brk), Range(h.brk, h1.brk));
  }

  lemma {:induction false} RangesJoin(lo: int, mid: int, hi: int)
    requires lo <= mid <= hi
    ensures Range(lo, hi) == Range(lo, mid) + Range(mid, hi) && Range(lo, mid) !! Range(mid, hi)
    decreases hi - mid
  {
    if mid < hi { RangesJoin(lo, mid, hi - 1); }
    RangeIs(lo, mid);
    RangeIs(mid, hi);
  }

  lemma Rest(live: set<int>, free: set<int>, live': set<int>, free': set<int>, gone: set<int>, came: set<int>,
             all: set<int>, all': set<int>, grown: set<int>)
    requires live !! free && live + free == all && live' !! free' && live' + free' == all'
    requires live' == live - gone + came && gone <= live && came <= live' && all' == all + grown && all !! grown
    ensures free' == free + grown + gone - came
  {
    forall x ensures x in free' <==> x in free + grown + gone - came {
      assert x in free' <==> x in all' && x !in live';
    }
  }

  lemma GoneIsHeld(h: Heap, a: int)
    requires Merged(h) && (a == 0 || IsLive(h, a))
    ensures BlockSpace(h.B, a) <= LiveSpace(h)
  {
    NullHasNoSpace(h);
    forall x | x in BlockSpace(h.B, a) ensures x in LiveSpace(h) { assert a in h.B && IsLive(h, a); }
    hide Merged;
  }

  ghost function BytesOf(B: Blocks, a: int): int {
    if a in B then B[a].size else 0
  }

  /** In numbers: the free bytes fall by exactly the bytes of the block handed out, and rise by exactly those
      of the block given back and those by which the heap grows. */
  ghost predicate Accounted(h: Heap, h1: Heap, gone: int, came: int) {
    |FreeSpace(h1)| == |FreeSpace(h)| + (h1.brk - h.brk) + BytesOf(h.B, gone) - BytesOf(h1.B, came)
  }

  lemma FreeBytesAfter(h: Heap, h1: Heap, gone: int, came: int)
    requires Trades(h, h1, gone, came)
    ensures Accounted(h, h1, gone, came)
  {
    SpaceIsShared(h);
    SpaceIsShared(h1);
    LiveBytesAfter(h, h1, gone, came);
    RangeIs(PROLOGUE + 8, h.brk);
    RangeIs(PROLOGUE + 8, h1.brk);
    AfterPrologue(h);
    AfterPrologue(h1);
    hide Merged, LiveChange, LiveSpace, FreeSpace, BlockSpace, Range, Trades;
    Disjoint(LiveSpace(h), FreeSpace(h));
    Disjoint(LiveSpace(h1), FreeSpace(h1));
  }

  lemma AfterPrologue(h: Heap)
    requires Merged(h)
    ensures PROLOGUE + 8 <= h.brk
  {
    TileFacts(h.B, h.brk, PROLOGUE);
    BreakFacts(h.B, h.brk);
    Apart(h.B, h.brk, PROLOGUE, h.brk);
  }

  lemma Disjoint(a: set<int>, b: set<int>)
    requires a !! b
    ensures |a + b| == |a| + |b|
  {
  }

  lemma LiveBytesAfter(h: Heap, h1: Heap, gone: int, came: int)
    requires Trades(h, h1, gone, came)
    ensures |LiveSpace(h1)| == |LiveSpace(h)| - BytesOf(h.B, gone) + BytesOf(h1.B, came)
  {
    hide Merged, LiveChange, LiveSpace, BlockSpace, BytesOf;
    LiveSpaceAfter(h, h1, gone, came);
    GoneIsHeld(h, gone);
    SizesAreBytes(h, gone);
    SizesAreBytes(h1, came);
    ComesFromElsewhere(h, h1, gone, came);
    Traded(LiveSpace(h), BlockSpace(h.B, gone), BlockSpace(h1.B, came));
  }

  lemma Traded(live: set<int>, gone: set<int>, came: set<int>)
    requires gone <= live && live - gone !! came
    ensures |live - gone + came| == |live| - |gone| + |came|
  {
    Disjoint(live - gone, came);
    assert live == (live - gone) + gone;
  }

  lemma SizesAreBytes(h: Heap, a: int)
    requires Merged(h) && (a == 0 || IsLive(h, a))
    ensures |BlockSpace(h.B, a)| == BytesOf(h.B, a)
  {
    NullHasNoSpace(h);
    InBlock(h.B, a);
    if a in h.B { TileFacts(h.B, h.brk, a); }
  }

  lemma ComesFromElsewhere(h: Heap, h1: Heap, gone: int, came: int)
    requires Trades(h, h1, gone, came)
    ensures LiveSpace(h) - BlockSpace(h.B, gone) !! BlockSpace(h1.B, came)
  {
    forall x | x in LiveSpace(h) - BlockSpace(h.B, gone) ensures x !in BlockSpace(h1.B, came) {
      var a :| a in h.B && IsLive(h, a) && x in BlockSpace(h.B, a);
      assert LiveKept(h, h1, a);
      assert x in BlockSpace(h1.B, a);
      if a != came { OneBlockEach(h1, a, came, x); }
    }
    hide Merged;
  }

  // ----- the callers' blocks settle the rest

  /** Between two allocated blocks without another between them there is exactly one free block. */
  lemma GapIsFree(h: Heap, lo: int, hi: int)
    requires Merged(h) && lo in h.B && hi in h.B && PROLOGUE < lo < hi && h.B[hi].alloc
    requires forall a :: IsLive(h, a) ==> a + h.B[a].size <= lo || hi <= a
    ensures IsFree(h.B, lo) && h.B[lo].size == hi - lo
  {
    TileFacts(h.B, h.brk, lo);
    BreakFacts(h.B, h.brk);
    AfterMerged(h, lo);
    var next := lo + h.B[lo].size;
    Apart(h.B, h.brk, lo, hi);
    if next < hi { Apart(h.B, h.brk, next, hi); }
    TileFacts(h.B, h.brk, next);
  }

  /** Two states between calls in which the callers hold the same blocks have the same free blocks: the
      stretches between the callers' blocks. */
  lemma LayoutIsSettled(h: Heap, h1: Heap)
    requires Merged(h) && Merged(h1) && SameLive(h, h1) && h1.brk == h.brk
    ensures forall a :: IsFree(h.B, a) ==> IsFree(h1.B, a) && h1.B[a].size == h.B[a].size
    ensures h1.B.Keys == h.B.Keys && forall a :: a in h.B ==> h1.B[a] == h.B[a]
  {
    SameFree(h, h1);
    SameFree(h1, h);
    SameBlocks(h, h1);
  }

  ghost predicate SameLive(h: Heap, h1: Heap) {
    forall a {:trigger IsLive(h1, a)} {:trigger IsLive(h, a)} ::
      (IsLive(h1, a) <==> IsLive(h, a)) && (IsLive(h, a) ==> h1.B[a].size == h.B[a].size)
  }

  lemma SameFree(h: Heap, h1: Heap)
    requires Merged(h) && Merged(h1) && SameLive(h, h1) && h1.brk == h.brk
    ensures forall a :: IsFree(h.B, a) ==> IsFree(h1.B, a) && h1.B[a].size == h.B[a].size
  {
    forall a | IsFree(h.B, a) ensures IsFree(h1.B, a) && h1.B[a].size == h.B[a].size {
      GapBorders(h, h1, a);
      GapIsFree(h1, a, a + h.B[a].size);
    }
  }

  /** The allocated blocks around a free block are in the other state as well, and nothing lies between them. */
  lemma GapBorders(h: Heap, h1: Heap, a: int)
    requires Merged(h) && Merged(h1) && SameLive(h, h1) && h1.brk == h.brk && IsFree(h.B, a)
    ensures var hi := a + h.B[a].size; a in h1.B && hi in h1.B && PROLOGUE < a < hi && h1.B[hi].alloc
    ensures forall b :: IsLive(h1, b) ==> b + h1.B[b].size <= a || a + h.B[a].size <= b
  {
    var hi := a + h.B[a].size;
    AfterMerged(h, a);
    var p := PreviousBlock(h.B, h.brk, a);
    TileFacts(h.B, h.brk, p);
    TileFacts(h.B, h.brk, hi);
    BreakFacts(h.B, h.brk);
    BreakFacts(h1.B, h1.brk);
    assert p != PROLOGUE ==> IsLive(h, p);
    assert hi != h.brk ==> IsLive(h, hi);
    TileFacts(h1.B, h1.brk, p);
    forall b | IsLive(h1, b) ensures b + h1.B[b].size <= a || hi <= b {
      assert IsLive(h, b);
      if b < a { Apart(h.B, h.brk, b, a); } else { Apart(h.B, h.brk, a, b); }
    }
  }

  lemma SameBlocks(h: Heap, h1: Heap)
    requires Merged(h) && Merged(h1) && SameLive(h, h1) && h1.brk == h.brk
    requires forall a :: IsFree(h.B, a) ==> IsFree(h1.B, a) && h1.B[a].size == h.B[a].size
    requires forall a :: IsFree(h1.B, a) ==> IsFree(h.B, a)
    ensures h1.B.Keys == h.B.Keys && forall a :: a in h.B ==> h1.B[a] == h.B[a]
  {
    BreakFacts(h.B, h.brk);
    BreakFacts(h1.B, h1.brk);
    forall a ensures a in h.B <==> a in h1.B {
      if a in h.B { KindOf(h, a); }
      if a in h1.B { KindOf(h1, a); }
    }
    forall a | a in h.B ensures h1.B[a] == h.B[a] { SameBlock(h, h1, a); }
  }

  lemma KindOf(h: Heap, a: int)
    requires Merged(h) && a in h.B
    ensures a == PROLOGUE || a == h.brk || IsLive(h, a) || IsFree(h.B, a)
  {
    TileFacts(h.B, h.brk, a);
  }

  lemma SameBlock(h: Heap, h1: Heap, a: int)
    requires Merged(h) && Merged(h1) && SameLive(h, h1) && h1.brk == h.brk && a in h.B && a in h1.B && h.B.Keys == h1.B.Keys
    requires forall b :: IsFree(h.B, b) ==> IsFree(h1.B, b) && h1.B[b].size == h.B[b].size
    requires forall b :: IsFree(h1.B, b) ==> IsFree(h.B, b)
    ensures h1.B[a] == h.B[a]
  {
    KindOf(h, a);
    BreakFacts(h.B, h.brk);
    BreakFacts(h1.B, h1.brk);
    if a != PROLOGUE {
      var p := PreviousBlock(h.B, h.brk, a);
      KindOf(h, p);
      TileFacts(h1.B, h1.brk, p);
    }
  }
}
