/** What each public operation achieves, from one ready state to the next.

    A stretch is takeable when nothing in it is on a list and at most one caller's block, `gone`,
    lies in it.  Each lemma below says what rewriting a takeable stretch leads to; where the program
    still has to list or coalesce a block, it says what that will lead to.
 */
module SegPlans {
  import opened SegWords
  import opened SegLayout
  import opened SegLists
  import opened SegSteps
  import opened SegMoves

  ghost predicate Takeable(h: Heap, lo: int, hi: int, gone: int) {
    && SoundBut(h, lo, hi - 1) && h.brk <= 4 * |h.m| && lo in h.B && hi in h.B && PROLOGUE < lo && lo + 8 <= hi
    && NoneListedIn(h.L, lo, hi) && |h.L| == LISTLIMIT
    && (forall a :: a in h.B && lo <= a < hi && h.B[a].alloc ==> a == gone) && (gone == 0 || lo <= gone < hi)
    && forall a {:trigger TidyAt(h.B, h.L, a)} :: IsFree(h.B, a) && (a < lo || hi <= a) ==> TidyAt(h.B, h.L, a)
  }

  lemma TakeableFacts(h: Heap, lo: int, hi: int, gone: int)
    requires Takeable(h, lo, hi, gone)
    ensures lo % 8 == 0 && hi % 8 == 0 && hi <= h.brk && HasRoom(h.m, lo, hi - lo)
    ensures CutOk(h.B, lo, hi, hi, true, true) && (16 <= hi - lo ==> CutOk(h.B, lo, hi, hi, false, false))
    ensures IsCell(h.m, lo - 4)
  {
    TakeableRoom(h, lo, hi, gone);
    RoomCells(h.m, lo, hi - lo);
    hide Takeable, IsCell;
  }

  lemma TakeableRoom(h: Heap, lo: int, hi: int, gone: int)
    requires Takeable(h, lo, hi, gone)
    ensures lo in h.B && hi in h.B && PROLOGUE < lo < hi && lo % 8 == 0 && hi % 8 == 0 && hi <= h.brk
    ensures HasRoom(h.m, lo, hi - lo)
  {
    TileFacts(h.B, h.brk, lo);
    TileFacts(h.B, h.brk, hi);
    RoomFor(h, lo, hi);
    hide HasRoom, NoneListedIn, TidyAt, SoundBut;
  }

  /** Around a cut nothing loses its tidiness, except that a free block right behind it may find
      a free block in front. */
  lemma TakeTidy(h: Heap, m': Memory, lo: int, mid: int, hi: int, firstAlloc: bool, secondAlloc: bool, gone: int, a: int)
    requires Takeable(h, lo, hi, gone) && CutOk(h.B, lo, mid, hi, firstAlloc, secondAlloc)
    requires var h' := AfterCut(h, m', lo, mid, hi, firstAlloc, secondAlloc);
      IsFree(h'.B, a) && a != lo && (a != mid || mid == hi)
    ensures var h' := AfterCut(h, m', lo, mid, hi, firstAlloc, secondAlloc);
      && a in h'.L[ListIndex(h'.B[a].size)]
      && (a != hi || (if mid == hi then firstAlloc else secondAlloc) ==> TidyAt(h'.B, h'.L, a))
  {
    assert IsFree(h.B, a) && (a < lo || hi <= a);
    assert TidyAt(h.B, h.L, a);
  }

  lemma TransitIn(h: Heap, x: int)
    requires Sound(h) && h.brk <= 4 * |h.m| && IsFree(h.B, x) && NotListed(h.L, x) && |h.L| == LISTLIMIT
    requires forall a :: IsFree(h.B, a) && a != x ==>
      TidyAt(h.B, h.L, a) || (a == x + h.B[x].size && a in h.L[ListIndex(h.B[a].size)])
    ensures InTransit(h, x)
  {
  }

  /** When both neighbours are taken, listing is enough. */
  lemma ListingWillDo(h: Heap, x: int)
    requires InTransit(h, x) && h.B[x].prevAlloc && (x + h.B[x].size in h.B ==> h.B[x + h.B[x].size].alloc)
    ensures forall h' :: Listing(h, h', x, 1, 0) ==> Ready(h') && LiveChange(h, h', 0, 0) && h'.B == h.B
  {
    forall h' | Listing(h, h', x, 1, 0) ensures Ready(h') && LiveChange(h, h', 0, 0) && h'.B == h.B {
      TransitReady(h, h', x);
    }
  }

  /** What a request for `asize` bytes gets of a stretch of `total`: all of it, if what is left over could not
      stand alone. */
  function Handed(asize: int, total: int): (n: int)
    ensures asize <= total ==> asize <= n <= total && n < asize + MIN_FREE_BLOCK_SIZE && (n == asize || n == total)
  {
    if total - asize >= MIN_FREE_BLOCK_SIZE then asize else total
  }

  /** The block at `r` has been handed out with `n` bytes, its words untouched. */
  ghost predicate Carved(h: Heap, h1: Heap, gone: int, r: int, n: int) {
    && LiveChange(h, h1, gone, r) && IsLive(h1, r) && h1.B[r].size == n && h1.brk == h.brk
    && SameWords(h.m, h1.m, r, r + n - 4)
  }

  /** A quiet end keeps what the new block was given. */
  lemma CarvedThenQuiet(h: Heap, h1: Heap, h2: Heap, gone: int, r: int, asize: int)
    requires Carved(h, h1, gone, r, asize) && LiveChange(h1, h2, 0, 0) && h2.brk == h1.brk
    ensures Carved(h, h2, gone, r, asize)
  {
    LiveChangeThenQuiet(h, h1, h2, gone, r);
    assert LiveKept(h1, h2, r);
  }

  /** Splitting a stretch whose end is followed by an allocated block: listing the rest completes it. */
  lemma CarvePlan(h: Heap, h1: Heap, lo: int, mid: int, hi: int, gone: int)
    requires Takeable(h, lo, hi, gone) && mid % 8 == 0 && lo + 8 <= mid && mid + 16 <= hi && h.B[hi].alloc
    requires h1 == AfterCut(h, WriteSplit(h.m, lo, mid, hi, PrevOf(h.B, lo)), lo, mid, hi, true, false)
    ensures Sound(h1) && IsFree(h1.B, mid) && h1.B[mid].size == hi - mid && NotListed(h1.L, mid)
    ensures forall h2 :: Listing(h1, h2, mid, 1, 0) ==> Ready(h2) && Carved(h, h2, gone, lo, mid - lo)
  {
    SplitPlan(h, h1, lo, mid, hi, gone);
    ListingWillDo(h1, mid);
    forall h2 | Listing(h1, h2, mid, 1, 0) ensures Ready(h2) && Carved(h, h2, gone, lo, mid - lo) {
      CarvedThenQuiet(h, h1, h2, gone, lo, mid - lo);
    }
  }

  lemma TakePlan(h: Heap, h1: Heap, lo: int, hi: int, gone: int)
    requires Takeable(h, lo, hi, gone)
    requires h1 == AfterCut(h, WriteAlloc(h.m, lo, hi - lo, PrevOf(h.B, lo)), lo, hi, hi, true, true)
    ensures Ready(h1) && Carved(h, h1, gone, lo, hi - lo)
  {
    TakeableFacts(h, lo, hi, gone);
    AllocStep(h, lo, hi);
    CutFacts(h.B, lo, hi, hi, true, true);
    CutLive(h, h1.m, lo, hi, hi, true, true, gone, lo);
    forall a | IsFree(h1.B, a) ensures TidyAt(h1.B, h1.L, a) {
      TakeTidy(h, h1.m, lo, hi, hi, true, true, gone, a);
    }
    BreakFacts(h.B, h.brk);
  }

  lemma SplitPlan(h: Heap, h1: Heap, lo: int, mid: int, hi: int, gone: int)
    requires Takeable(h, lo, hi, gone) && mid % 8 == 0 && lo + 8 <= mid && mid + 16 <= hi
    requires h1 == AfterCut(h, WriteSplit(h.m, lo, mid, hi, PrevOf(h.B, lo)), lo, mid, hi, true, false)
    ensures InTransit(h1, mid) && h1.B[mid] == Block(hi - mid, true, false)
    ensures hi in h1.B && h1.B[hi].alloc == h.B[hi].alloc
    ensures Carved(h, h1, gone, lo, mid - lo)
  {
    TakeableFacts(h, lo, hi, gone);
    SplitStep(h, lo, mid, hi);
    CutFacts(h.B, lo, mid, hi, true, false);
    CutLive(h, h1.m, lo, mid, hi, true, false, gone, lo);
    BreakFacts(h.B, h.brk);
    assert forall i :: 0 <= i < |h.L| ==> mid !in h.L[i];
    forall a | IsFree(h1.B, a) && a != mid
      ensures TidyAt(h1.B, h1.L, a) || (a == mid + h1.B[mid].size && a in h1.L[ListIndex(h1.B[a].size)])
    {
      TakeTidy(h, h1.m, lo, mid, hi, true, false, gone, a);
    }
    TransitIn(h1, mid);
  }

  lemma FreePlan(h: Heap, h1: Heap, lo: int, hi: int, gone: int)
    requires Takeable(h, lo, hi, gone) && lo + 16 <= hi
    requires h1 == AfterCut(h, WriteFree(h.m, lo, hi - lo, PrevOf(h.B, lo)), lo, hi, hi, false, false)
    ensures InTransit(h1, lo) && h1.B[lo].size == hi - lo && LiveChange(h, h1, gone, 0)
  {
    TakeableFacts(h, lo, hi, gone);
    FreeStep(h, lo, hi);
    CutFacts(h.B, lo, hi, hi, false, false);
    CutLive(h, h1.m, lo, hi, hi, false, false, gone, 0);
    assert forall i :: 0 <= i < |h.L| ==> lo !in h.L[i];
    forall a | IsFree(h1.B, a) && a != lo
      ensures TidyAt(h1.B, h1.L, a) || (a == lo + h1.B[lo].size && a in h1.L[ListIndex(h1.B[a].size)])
    {
      TakeTidy(h, h1.m, lo, hi, hi, false, false, gone, a);
    }
    TransitIn(h1, lo);
  }

  lemma FreeThenQuiet(h: Heap, h1: Heap, lo: int, hi: int, gone: int)
    requires Takeable(h, lo, hi, gone) && lo + 16 <= hi
    requires h1 == AfterCut(h, WriteFree(h.m, lo, hi - lo, PrevOf(h.B, lo)), lo, hi, hi, false, false)
    ensures InTransit(h1, lo)
    ensures forall h2 :: LiveChange(h1, h2, 0, 0) ==> LiveChange(h, h2, gone, 0)
  {
    FreePlan(h, h1, lo, hi, gone);
    forall h2 | LiveChange(h1, h2, 0, 0) ensures LiveChange(h, h2, gone, 0) {
      LiveChangeThenQuiet(h, h1, h2, gone, 0);
    }
  }

  lemma SplitThenQuiet(h: Heap, h1: Heap, lo: int, mid: int, hi: int, gone: int)
    requires Takeable(h, lo, hi, gone) && mid % 8 == 0 && lo + 8 <= mid && mid + 16 <= hi
    requires h1 == AfterCut(h, WriteSplit(h.m, lo, mid, hi, PrevOf(h.B, lo)), lo, mid, hi, true, false)
    ensures InTransit(h1, mid)
    ensures forall h2 :: LiveChange(h1, h2, 0, 0) && h2.brk == h1.brk ==> Carved(h, h2, gone, lo, mid - lo)
    ensures h1.brk == h.brk
  {
    SplitPlan(h, h1, lo, mid, hi, gone);
    forall h2 | LiveChange(h1, h2, 0, 0) && h2.brk == h1.brk ensures Carved(h, h2, gone, lo, mid - lo) {
      CarvedThenQuiet(h, h1, h2, gone, lo, mid - lo);
    }
  }

  // ----- growth

  lemma GrowFreePlan(h: Heap, h1: Heap, brk': int)
    requires Ready(h) && h.brk + 16 <= brk' <= 4 * |h.m| && (brk' - h.brk) % 8 == 0
    requires h1 == AfterGrowth(h, brk').(m := WriteEpilogue(WriteFree(h.m, h.brk, brk' - h.brk, PrevOf(h.B, h.brk)), brk', false))
    ensures InTransit(h1, h.brk) && h1.B[h.brk].size == brk' - h.brk && LiveChange(h, h1, 0, 0)
  {
    GrowFreeStep(h, brk');
    GrowthLive(h, h1, brk');
    BreakFacts(h.B, h.brk);
    AllocatedNotListed(h, h.brk);
    forall a | IsFree(h1.B, a) && a != h.brk ensures TidyAt(h1.B, h1.L, a) {
      assert TidyAt(h.B, h.L, a);
    }
    TransitIn(h1, h.brk);
  }

  lemma GrowAllocPlan(h: Heap, h1: Heap, lo: int, brk': int, gone: int)
    requires Sound(h) && Takeable(h, lo, h.brk, gone)
    requires h.brk + 16 <= brk' <= 4 * |h.m| && (brk' - h.brk) % 8 == 0
    requires h1 == AfterCut(AfterGrowth(h, brk'), WriteEpilogue(WriteAlloc(h.m, lo, brk' - lo, PrevOf(h.B, lo)), brk', true),
                            lo, brk', brk', true, true)
    ensures Ready(h1) && LiveChange(h, h1, gone, lo) && IsLive(h1, lo) && h1.B[lo].size == brk' - lo && h1.brk == brk'
    ensures SameWords(h.m, h1.m, lo, brk' - 4)
  {
    GrowAllocParts(h, h1, lo, brk', gone);
    hide Sound, Takeable, SameWords, LiveChange, SameOutside, WriteAlloc, WriteEpilogue, Tiled, CutOk, Grown, Cut, PrevOf;
    GrowAllocLive(h, h1, lo, brk', gone);
    GrowAllocTidy(h, h1, lo, brk', gone);
  }

  /** What the plan needs of the tiling and of the headers. */
  lemma GrowAllocParts(h: Heap, h1: Heap, lo: int, brk': int, gone: int)
    requires Sound(h) && Takeable(h, lo, h.brk, gone)
    requires h.brk + 16 <= brk' <= 4 * |h.m| && (brk' - h.brk) % 8 == 0
    requires h1 == AfterCut(AfterGrowth(h, brk'), WriteEpilogue(WriteAlloc(h.m, lo, brk' - lo, PrevOf(h.B, lo)), brk', true),
                            lo, brk', brk', true, true)
    ensures Sound(h1) && SameOutside(h.m, h1.m, lo - 4, brk') && SameWords(h.m, h1.m, lo, brk' - 4) && |h1.m| == |h.m|
    ensures h1.brk == brk' && IsLive(h1, lo) && h1.B[lo].size == brk' - lo
    ensures Tiled(Grown(h.B, h.brk, brk'), brk') && CutOk(Grown(h.B, h.brk, brk'), lo, brk', brk', true, true)
  {
    hide SameWords, WriteAlloc, WriteEpilogue, Takeable, Tiled, CutOk, Grown, NoneListedIn, HeaderOk;
    TakeableToEnd(h, lo, gone);
    GrowAllocStep(h, lo, brk');
    GrownTiled(h.B, h.brk, brk');
    GrownCutFacts(h.B, h.brk, lo, brk');
    hide Sound, Cut;
  }

  lemma TakeableToEnd(h: Heap, lo: int, gone: int)
    requires Sound(h) && Takeable(h, lo, h.brk, gone)
    ensures lo in h.B && PROLOGUE < lo < h.brk && h.brk % 8 == 0 && NoneListedIn(h.L, lo, h.brk) && Tiled(h.B, h.brk)
  {
    BreakFacts(h.B, h.brk);
    hide NoneListedIn;
  }

  lemma GrowAllocTidy(h: Heap, h1: Heap, lo: int, brk': int, gone: int)
    requires Takeable(h, lo, h.brk, gone) && h.brk + 16 <= brk'
    requires h1 == AfterCut(AfterGrowth(h, brk'), h1.m, lo, brk', brk', true, true)
    requires CutOk(Grown(h.B, h.brk, brk'), lo, brk', brk', true, true)
    ensures forall a :: IsFree(h1.B, a) ==> TidyAt(h1.B, h1.L, a)
  {
    BreakFacts(h.B, h.brk);
    forall a | IsFree(h1.B, a) ensures TidyAt(h1.B, h1.L, a) {
      assert a in h.B && a < lo && h1.B[a] == h.B[a];
      assert TidyAt(h.B, h.L, a);
    }
  }

  lemma GrowAllocLive(h: Heap, h1: Heap, lo: int, brk': int, gone: int)
    requires Takeable(h, lo, h.brk, gone) && Tiled(Grown(h.B, h.brk, brk'), brk') && h.brk + 16 <= brk'
    requires h1 == AfterCut(AfterGrowth(h, brk'), h1.m, lo, brk', brk', true, true) && SameOutside(h.m, h1.m, lo - 4, brk')
    requires CutOk(Grown(h.B, h.brk, brk'), lo, brk', brk', true, true)
    ensures LiveChange(h, h1, gone, lo)
  {
    var g := AfterGrowth(h, brk');
    GrowthLive(h, g, brk');
    BreakFacts(h.B, h.brk);
    forall a | a in g.B && lo <= a < brk' && g.B[a].alloc ensures a == gone {
      assert a in h.B;
    }
    CutLive(g, h1.m, lo, brk', brk', true, true, gone, lo);
    QuietThenLiveChange(h, g, h1, gone, lo);
  }

  // ----- takeable stretches

  /** A caller's block by itself. */
  lemma LiveTakeable(h: Heap, a: int)
    requires Ready(h) && IsLive(h, a)
    ensures Takeable(h, a, a + h.B[a].size, a)
  {
    TileFacts(h.B, h.brk, a);
    AllocatedNotListed(h, a);
    SoundButLess(h, 1, 0, a, a + h.B[a].size - 1);
    forall x | x in h.B && a <= x < a + h.B[a].size ensures x == a {
      Between(h.B, h.brk, a, x);
    }
    forall x | IsFree(h.B, x) ensures TidyAt(h.B, h.L, x) {
      TidyFacts(h, x);
    }
  }

  /** A free block that has left its list. */
  lemma RemovedTakeable(h: Heap, h1: Heap, a: int)
    requires Ready(h) && IsFree(h.B, a) && Removal(h, h1, a)
    ensures Takeable(h1, a, a + h.B[a].size, 0) && h1.B[a + h.B[a].size].alloc
  {
    AfterFree(h, a);
    BlockNotListed(h1.m, h1.seg, h1.B, h1.brk, h1.L, a);
    SoundButLess(h1, 1, 0, a, a + h.B[a].size - 1);
    forall x | x in h.B && a <= x < a + h.B[a].size ensures x == a {
      Between(h.B, h.brk, a, x);
    }
    forall x | IsFree(h1.B, x) && x != a ensures TidyAt(h1.B, h1.L, x) {
      TidyFacts(h, x);
    }
  }

  /** A caller's block with the free block behind it, once that has left its list. */
  lemma LiveWithNextTakeable(h: Heap, h1: Heap, a: int)
    requires Ready(h) && IsLive(h, a) && IsFree(h.B, a + h.B[a].size) && Removal(h, h1, a + h.B[a].size)
    ensures var next := a + h.B[a].size; var hi := next + h.B[next].size;
      Takeable(h1, a, hi, a) && hi in h1.B && h1.B[hi].alloc
  {
    var next := a + h.B[a].size;
    var hi := next + h.B[next].size;
    RemovedTakeable(h, h1, next);
    TileFacts(h.B, h.brk, a);
    TileFacts(h.B, h.brk, next);
    AllocatedNotListed(h1, a);
    NoneListedJoin(h1.L, a, next, hi);
    SoundButLess(h1, 1, 0, a, hi - 1);
    forall x | x in h.B && a <= x < hi ensures x == a || x == next {
      Between(h.B, h.brk, a, x);
      Between(h.B, h.brk, next, x);
    }
    forall x | IsFree(h1.B, x) && (x < a || hi <= x) ensures TidyAt(h1.B, h1.L, x) {
      TidyFacts(h, x);
    }
  }

  /** A caller's block with the free block in front of it, once that has left its list. */
  lemma PrevWithLiveTakeable(h: Heap, h1: Heap, p: int, a: int)
    requires Ready(h) && IsLive(h, a) && IsFree(h.B, p) && p + h.B[p].size == a && Removal(h, h1, p)
    ensures Takeable(h1, p, a + h.B[a].size, a)
  {
    var hi := a + h.B[a].size;
    AfterFree(h, p);
    TileFacts(h.B, h.brk, a);
    BlockNotListed(h1.m, h1.seg, h1.B, h1.brk, h1.L, p);
    AllocatedNotListed(h1, a);
    NoneListedJoin(h1.L, p, a, hi);
    SoundButLess(h1, 1, 0, p, hi - 1);
    forall x | x in h.B && p <= x < hi ensures x == a || x == p {
      Between(h.B, h.brk, a, x);
      Between(h.B, h.brk, p, x);
    }
    forall x | IsFree(h1.B, x) && (x < p || hi <= x) ensures TidyAt(h1.B, h1.L, x) {
      TidyFacts(h, x);
    }
  }

  /** A caller's block between two free blocks, once both have left their lists. */
  lemma AllThreeTakeable(h: Heap, h1: Heap, h2: Heap, p: int, a: int)
    requires Ready(h) && IsLive(h, a) && IsFree(h.B, p) && p + h.B[p].size == a && Removal(h, h1, p)
    requires IsFree(h.B, a + h.B[a].size) && Removal(h1, h2, a + h.B[a].size)
    ensures var next := a + h.B[a].size; Takeable(h2, p, next + h.B[next].size, a)
  {
    var next := a + h.B[a].size;
    var hi := next + h.B[next].size;
    AfterFree(h, p);
    AfterFree(h, next);
    TileFacts(h.B, h.brk, a);
    assert NotListed(h2.L, p) by {
      assert forall i :: 0 <= i < |h2.L| ==> (p in h2.L[i] <==> p in h1.L[i]);
    }
    BlockNotListed(h2.m, h2.seg, h2.B, h2.brk, h2.L, p);
    BlockNotListed(h2.m, h2.seg, h2.B, h2.brk, h2.L, next);
    AllocatedNotListed(h2, a);
    NoneListedJoin(h2.L, p, a, next);
    NoneListedJoin(h2.L, p, next, hi);
    SoundButLess(h2, 1, 0, p, hi - 1);
    forall x | x in h.B && p <= x < hi ensures x == a || x == p || x == next {
      Between(h.B, h.brk, a, x);
      Between(h.B, h.brk, p, x);
      Between(h.B, h.brk, next, x);
    }
    forall x | IsFree(h2.B, x) && (x < p || hi <= x) ensures TidyAt(h2.B, h2.L, x) {
      TidyFacts(h, x);
    }
  }

  /** Contents may be moved about inside the stretch. */
  lemma MovedTakeable(h: Heap, h1: Heap, lo: int, hi: int, gone: int)
    requires Takeable(h, lo, hi, gone) && SameOutside(h.m, h1.m, lo, hi - 4) && h1 == h.(m := h1.m)
    ensures Takeable(h1, lo, hi, gone)
  {
    TakeableFacts(h, lo, hi, gone);
    forall a | a in h.B && (a < lo || hi <= a) ensures HeaderOk(h1.m, h.B, a) {
      HeaderAt(h, lo, hi - 1, a);
      TileFacts(h.B, h.brk, a);
      if a < lo {
        Apart(h.B, h.brk, a, lo);
      }
    }
    SameOutsideLess(h.m, h1.m, lo, hi - 4, lo - 4, hi);
    ListedElsewhere(h.m, h1.m, h.seg, h.B, h.brk, h.B, h.L, lo, hi);
    forall a | IsFree(h1.B, a) && (a < lo || hi <= a) ensures TidyAt(h1.B, h1.L, a) {
      assert TidyAt(h.B, h.L, a);
    }
  }

  // ----- placing the block at the end

  /** Once the shortened block is listed, the tail is ready to be handed out, and nobody has lost anything. */
  ghost predicate Shortened(h: Heap, h1: Heap, lo: int, mid: int, hi: int) {
    forall h2 :: Listing(h1, h2, lo, mid, mid) ==> Takeable(h2, mid, hi, 0) && LiveChange(h, h2, 0, 0) && !PrevOf(h2.B, mid)
  }

  lemma ShortenedListed(h: Heap, h1: Heap, h2: Heap, lo: int, mid: int, hi: int)
    requires Shortened(h, h1, lo, mid, hi) && Listing(h1, h2, lo, mid, mid) && lo in h1.B
    ensures Takeable(h2, mid, hi, 0) && LiveChange(h, h2, 0, 0) && !PrevOf(h2.B, mid)
    ensures SoundBut(h2, mid, mid) && lo in h2.B && h2.B[lo].size == h1.B[lo].size
  {
    hide Takeable, LiveChange, PrevOf, SoundBut;
  }

  /** `place` with a large remainder: the free block is shortened, listed, and the tail handed out. */
  lemma EndPlan(h: Heap, h1: Heap, lo: int, mid: int, hi: int)
    requires Sound(h) && Takeable(h, lo, hi, 0) && h.B[lo].size == hi - lo && IsFree(h.B, lo) && h.B[lo].prevAlloc && h.B[hi].alloc
    requires mid % 8 == 0 && lo + 16 <= mid && mid + 16 <= hi
    requires h1 == AfterCut(h, WriteFree(h.m, lo, mid - lo, PrevOf(h.B, lo)), lo, mid, hi, false, false)
    ensures SoundBut(h1, mid, mid) && IsFree(h1.B, lo) && h1.B[lo].size == mid - lo && NotListed(h1.L, lo)
    ensures NoneListedIn(h1.L, mid, mid + 1) && LiveChange(h, h1, 0, 0)
    ensures Shortened(h, h1, lo, mid, hi)
  {
    TakeableFacts(h, lo, hi, 0);
    TileFacts(h.B, h.brk, lo);
    ShortenStep(h, lo, mid, hi);
    CutFacts(h.B, lo, mid, hi, false, false);
    SameOutsideLess(h.m, h1.m, lo - 4, mid, lo - 4, hi);
    CutLive(h, h1.m, lo, mid, hi, false, false, 0, 0);
    NewBlockFree(h, h1.m, lo, mid, hi, false, false);
    StrangerNotListed(h, 1, 0, mid);
    assert forall i :: 0 <= i < |h.L| ==> lo !in h.L[i];
    forall h2 | Listing(h1, h2, lo, mid, mid)
      ensures Takeable(h2, mid, hi, 0) && LiveChange(h, h2, 0, 0) && !PrevOf(h2.B, mid)
    {
      EndListed(h, h1, h2, lo, mid, hi);
      LiveChangeThenQuiet(h, h1, h2, 0, 0);
    }
  }

  lemma EndListed(h: Heap, h1: Heap, h2: Heap, lo: int, mid: int, hi: int)
    requires Takeable(h, lo, hi, 0) && h.B[lo].size == hi - lo && h.B[lo].prevAlloc && h.B[hi].alloc
    requires mid % 8 == 0 && lo + 16 <= mid && mid + 16 <= hi
    requires h1 == AfterCut(h, h1.m, lo, mid, hi, false, false) && |h1.m| == |h.m| && Listing(h1, h2, lo, mid, mid)
    requires NotListed(h1.L, mid)
    ensures Takeable(h2, mid, hi, 0)
  {
    TakeableFacts(h, lo, hi, 0);
    CutFacts(h.B, lo, mid, hi, false, false);
    SoundButLess(h2, mid, mid, mid, hi - 1);
    forall i ensures 0 <= i < |h2.L| ==> mid !in h2.L[i] {
    }
    BlockNotListed(h2.m, h2.seg, h2.B, h2.brk, h2.L, mid);
    forall a | a in h2.B && mid <= a < hi ensures a == mid {
      Between(h2.B, h2.brk, mid, a);
    }
    forall a | IsFree(h2.B, a) && (a < mid || hi <= a) ensures TidyAt(h2.B, h2.L, a) {
      if a != lo {
        TakeTidy(h, h1.m, lo, mid, hi, false, false, 0, a);
      }
    }
  }

  lemma Fourfold(a: int)
    requires a % 8 == 0
    ensures a % 4 == 0
  {
    assert a == 4 * (2 * (a / 8));
  }

  lemma LiveRoom(h: Heap, a: int)
    requires Ready(h) && IsLive(h, a)
    ensures 0 < a && a % 4 == 0 && a + h.B[a].size <= h.brk <= 4 * |h.m| && 8 <= h.B[a].size
  {
    TileFacts(h.B, h.brk, a);
    Between(h.B, h.brk, a, h.brk);
    Fourfold(a);
  }

  // ----- realloc

  function Min(x: int, y: int): int {
    if x < y then x else y
  }

  /** What `mm_realloc(ptr, size)` promises when it returns `r`: the callers trade `ptr` for `r`, whose
      block has the `asize` bytes it needs, and no more than could not stand alone, and starts with the old
      contents; `r` was nobody else's. */
  ghost predicate Resized(h: Heap, h1: Heap, ptr: int, r: int, size: int, asize: int) {
    && LiveChange(h, h1, ptr, r) && IsLive(h1, r) && (r == ptr || !IsLive(h, r)) && r % 8 == 0
    && ptr in h.B && asize <= h1.B[r].size < asize + MIN_FREE_BLOCK_SIZE && BytesMoved(h.m, ptr, h1.m, r, Min(size, h.B[ptr].size - 4))
  }

  /** Resizing in place: the words of the old block up to the smaller of the two sizes are still there. */
  lemma ResizedInPlace(h: Heap, h1: Heap, ptr: int, size: int, asize: int, n: int)
    requires Ready(h) && IsLive(h, ptr) && LiveChange(h, h1, ptr, ptr) && IsLive(h1, ptr)
    requires asize <= h1.B[ptr].size < asize + MIN_FREE_BLOCK_SIZE
    requires SameWords(h.m, h1.m, ptr, ptr + n) && Min(size, h.B[ptr].size - 4) <= n
    ensures Resized(h, h1, ptr, ptr, size, asize)
  {
    hide LiveChange, SameWords, BytesMoved;
    assert ptr % 8 == 0 && ptr % 4 == 0 by {
      TileFacts(h.B, h.brk, ptr);
      Fourfold(ptr);
    }
    SameWordsLess(h.m, h1.m, ptr, ptr + n, ptr, ptr + Min(size, h.B[ptr].size - 4));
    WordsAreBytes(h.m, h1.m, ptr, Min(size, h.B[ptr].size - 4));
  }

  lemma SameWordsLess(m: Memory, m': Memory, lo: int, hi: int, lo': int, hi': int)
    requires SameWords(m, m', lo, hi) && lo <= lo' && hi' <= hi
    ensures SameWords(m, m', lo', hi')
  {
  }

  lemma CarvedInPlace(h: Heap, h1: Heap, ptr: int, size: int, asize: int, n: int)
    requires Ready(h) && IsLive(h, ptr) && Carved(h, h1, ptr, ptr, n) && size <= asize - 4 && asize <= n < asize + MIN_FREE_BLOCK_SIZE
    ensures Resized(h, h1, ptr, ptr, size, asize)
  {
    ResizedInPlace(h, h1, ptr, size, asize, asize - 4);
  }

  /** The same, after a neighbour has left its list. */
  lemma CarvedAfterRemoval(h: Heap, h1: Heap, h2: Heap, ptr: int, size: int, asize: int)
    requires Ready(h) && IsLive(h, ptr) && LiveChange(h, h1, 0, 0) && h1.brk == h.brk && h1.B == h.B
    requires LiveChange(h1, h2, ptr, ptr) && IsLive(h2, ptr) && asize <= h2.B[ptr].size < asize + MIN_FREE_BLOCK_SIZE
    requires SameWords(h1.m, h2.m, ptr, ptr + asize - 4) && size <= asize - 4
    ensures Resized(h, h2, ptr, ptr, size, asize)
  {
    assert LiveKept(h, h1, ptr);
    QuietThenLiveChange(h, h1, h2, ptr, ptr);
    var n := Min(size, h.B[ptr].size - 4);
    forall p | ptr <= p < ptr + n ensures Get(h2.m, p) == Get(h.m, p) {
      assert Get(h1.m, p) == Get(h.m, p);
    }
    ResizedInPlace(h, h2, ptr, size, asize, n);
  }

  /** The contents moved into the free block in front, before the blocks are rewritten. */
  lemma MovedLive(h: Heap, h1: Heap, lo: int, hi: int, ptr: int)
    requires Takeable(h, lo, hi, ptr) && IsLive(h, ptr) && SameOutside(h.m, h1.m, lo, hi - 4) && h1 == h.(m := h1.m)
    ensures LiveChange(h, h1, ptr, ptr)
  {
    forall a | IsLive(h, a) && a != ptr ensures LiveKept(h, h1, a) {
      if a < lo {
        Between(h.B, h.brk, a, lo);
      }
    }
  }

  lemma TradeThenTrade(h: Heap, h1: Heap, h2: Heap, ptr: int, r: int)
    requires LiveChange(h, h1, ptr, ptr) && LiveChange(h1, h2, ptr, r)
    ensures LiveChange(h, h2, ptr, r)
  {
    forall a | IsLive(h, a) && a != ptr ensures LiveKept(h, h2, a) {
      assert LiveKept(h, h1, a);
      assert LiveKept(h1, h2, a);
    }
  }

  /** Moving down: removals, the move, the rewriting. */
  lemma MovedDown(h: Heap, h1: Heap, h2: Heap, h3: Heap, lo: int, hi: int, ptr: int, size: int, asize: int, n: int)
    requires Ready(h) && IsLive(h, ptr) && LiveChange(h, h1, 0, 0) && h1.B == h.B && h1.brk == h.brk
    requires Takeable(h1, lo, hi, ptr) && lo in h.B && IsFree(h.B, lo) && lo % 8 == 0
    requires SameOutside(h1.m, h2.m, lo, hi - 4) && h2 == h1.(m := h2.m)
    requires BytesMoved(h1.m, ptr, h2.m, lo, h.B[ptr].size - 4)
    requires Carved(h2, h3, ptr, lo, n) && asize <= n < asize + MIN_FREE_BLOCK_SIZE && 0 <= size <= asize - 4
    ensures Resized(h, h3, ptr, lo, size, asize)
  {
    MovedDownLive(h, h1, h2, h3, lo, hi, ptr);
    assert LiveKept(h, h1, ptr);
    LiveRoom(h, ptr);
    Fourfold(lo);
    hide LiveChange, Takeable, Ready, SameOutside, SameWords, BytesMoved;
    MovedDownBytes(h.m, h1.m, h2.m, h3.m, lo, ptr, h.B[ptr].size - 4, size, n);
  }

  lemma MovedDownLive(h: Heap, h1: Heap, h2: Heap, h3: Heap, lo: int, hi: int, ptr: int)
    requires IsLive(h, ptr) && LiveChange(h, h1, 0, 0) && h1.B == h.B && h1.brk == h.brk
    requires Takeable(h1, lo, hi, ptr) && SameOutside(h1.m, h2.m, lo, hi - 4) && h2 == h1.(m := h2.m)
    requires LiveChange(h2, h3, ptr, lo)
    ensures LiveChange(h, h3, ptr, lo)
  {
    MovedLive(h1, h2, lo, hi, ptr);
    hide LiveChange, Takeable, SameOutside;
    QuietThenLiveChange(h, h1, h2, ptr, ptr);
    TradeThenTrade(h, h2, h3, ptr, lo);
  }

  lemma MovedDownBytes(m: Memory, m1: Memory, m2: Memory, m3: Memory, lo: int, ptr: int, payload: int, size: int, asize: int)
    requires SameWords(m, m1, ptr, ptr + payload) && BytesMoved(m1, ptr, m2, lo, payload)
    requires SameWords(m2, m3, lo, lo + asize - 4) && size <= asize - 4 && ptr % 4 == 0 && lo % 4 == 0
    ensures BytesMoved(m, ptr, m3, lo, Min(size, payload))
  {
    var n := Min(size, payload);
    SameWordsLess(m, m1, ptr, ptr + payload, ptr, ptr + n);
    SameWordsLess(m2, m3, lo, lo + asize - 4, lo, lo + n);
    BytesMovedLess(m1, ptr, m2, lo, payload, n);
    hide SameWords, BytesMoved;
    BytesChain(m, m1, m2, m3, ptr, lo, n);
  }

  lemma BytesMovedLess(m: Memory, src: int, m': Memory, dst: int, n: int, n': int)
    requires BytesMoved(m, src, m', dst, n) && n' <= n
    ensures BytesMoved(m, src, m', dst, n')
  {
  }

  lemma BytesChain(m: Memory, m1: Memory, m2: Memory, m3: Memory, src: int, dst: int, n: int)
    requires src % 4 == 0 && dst % 4 == 0 && SameWords(m, m1, src, src + n)
    requires BytesMoved(m1, src, m2, dst, n) && SameWords(m2, m3, dst, dst + n)
    ensures BytesMoved(m, src, m3, dst, n)
  {
    WordsAreBytes(m, m1, src, n);
    hide Byte;
    forall k | 0 <= k < n ensures ByteMoved(m, src, m2, dst, k) {
      assert ByteMoved(m, src, m1, src, k) && ByteMoved(m1, src, m2, dst, k);
    }
    BytesMovedThen(m, src, m2, dst, m3, n);
  }

  /** Writing into one's own block disturbs nothing. */
  lemma PayloadWritten(h: Heap, h1: Heap, a: int)
    requires Ready(h) && IsLive(h, a) && SameOutside(h.m, h1.m, a, a + h.B[a].size - 4) && h1 == h.(m := h1.m)
    ensures Ready(h1) && LiveChange(h, h1, a, a)
  {
    LiveTakeable(h, a);
    TileFacts(h.B, h.brk, a);
    MovedTakeable(h, h1, a, a + h.B[a].size, a);
    MovedLive(h, h1, a, a + h.B[a].size, a);
    forall b | b in h1.B ensures HeaderOk(h1.m, h1.B, b) {
      HeaderAt(h, 1, 0, b);
      HeaderAwayFromPayload(h, h1.m, a, b);
    }
    forall b | IsFree(h1.B, b) ensures TidyAt(h1.B, h1.L, b) {
      TidyFacts(h, b);
    }
  }

  lemma HeaderAwayFromPayload(h: Heap, m': Memory, a: int, b: int)
    requires Ready(h) && IsLive(h, a) && SameOutside(h.m, m', a, a + h.B[a].size - 4) && HeaderOk(h.m, h.B, b)
    ensures HeaderOk(m', h.B, b)
  {
    hide Get, Pack, SizeOf;
    TileFacts(h.B, h.brk, a);
    TileFacts(h.B, h.brk, b);
    Between(h.B, h.brk, a, b);
    Between(h.B, h.brk, b, a);
  }

  /** The fallback: a new block, the copy, the old block given back. */
  lemma Copied(h: Heap, h1: Heap, h2: Heap, h3: Heap, ptr: int, r: int, size: int, asize: int)
    requires Ready(h) && IsLive(h, ptr) && LiveChange(h, h1, 0, r) && IsLive(h1, r) && !IsLive(h, r) && r % 8 == 0
    requires asize <= h1.B[r].size < asize + MIN_FREE_BLOCK_SIZE && 0 <= size <= asize - 4
    requires h2 == h1.(m := h2.m) && LiveChange(h1, h2, r, r) && BytesMoved(h1.m, ptr, h2.m, r, Min(size, h.B[ptr].size - 4))
    requires LiveChange(h2, h3, ptr, 0)
    ensures Resized(h, h3, ptr, r, size, asize)
  {
    CopiedLive(h, h1, h2, h3, ptr, r);
    CopiedBytes(h, h1, h2, h3, ptr, r, Min(size, h.B[ptr].size - 4));
    hide LiveChange, Ready, BytesMoved;
  }

  lemma CopiedLive(h: Heap, h1: Heap, h2: Heap, h3: Heap, ptr: int, r: int)
    requires LiveChange(h, h1, 0, r) && LiveChange(h1, h2, r, r) && LiveChange(h2, h3, ptr, 0) && !IsLive(h, r)
    requires IsLive(h, ptr) && IsLive(h1, r) && h2.B == h1.B && h2.brk == h1.brk
    ensures LiveChange(h, h3, ptr, r) && IsLive(h3, r) && h3.B[r].size == h1.B[r].size
  {
    forall a | IsLive(h, a) && a != ptr ensures LiveKept(h, h3, a) {
      assert LiveKept(h, h1, a) && LiveKept(h1, h2, a) && LiveKept(h2, h3, a);
    }
    assert LiveKept(h2, h3, r);
  }

  lemma CopiedBytes(h: Heap, h1: Heap, h2: Heap, h3: Heap, ptr: int, r: int, n: int)
    requires Ready(h) && IsLive(h, ptr) && LiveChange(h, h1, 0, r) && r % 8 == 0 && r != ptr
    requires IsLive(h2, r) && LiveChange(h2, h3, ptr, 0) && n <= h.B[ptr].size - 4 && n <= h2.B[r].size - 4
    requires BytesMoved(h1.m, ptr, h2.m, r, n)
    ensures BytesMoved(h.m, ptr, h3.m, r, n)
  {
    LiveRoom(h, ptr);
    Fourfold(r);
    assert LiveKept(h, h1, ptr) && LiveKept(h2, h3, r);
    hide LiveChange, Ready;
    SameWordsLess(h.m, h1.m, ptr, ptr + h.B[ptr].size - 4, ptr, ptr + n);
    SameWordsLess(h2.m, h3.m, r, r + h2.B[r].size - 4, r, r + n);
    hide SameWords, BytesMoved, LiveKept;
    BytesChain(h.m, h1.m, h2.m, h3.m, ptr, r, n);
  }
}
