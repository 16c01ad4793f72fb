/** What each step means for the callers: which blocks they hold, what is in them, and whether the
    free lists are complete again.
 */
module SegMoves {
  import opened SegWords
  import opened SegLayout
  import opened SegLists
  import opened SegSteps

  // ----- tidiness

  /** The free block at `a` is on the list of its class, and what precedes it is allocated. */
  ghost predicate TidyAt(B: Blocks, L: Lists, a: int) {
    |L| == LISTLIMIT && a in B && a in L[ListIndex(B[a].size)] && B[a].prevAlloc
  }

  /** Between two calls: the state is sound, every free block is on its list, none follows another. */
  ghost predicate Ready(h: Heap) {
    Sound(h) && h.brk <= 4 * |h.m| && forall a {:trigger TidyAt(h.B, h.L, a)} :: IsFree(h.B, a) ==> TidyAt(h.B, h.L, a)
  }

  /** Inside a call: the free block at `x` is on no list yet, and may have free neighbours. */
  ghost predicate InTransit(h: Heap, x: int) {
    && Sound(h) && h.brk <= 4 * |h.m| && IsFree(h.B, x) && NotListed(h.L, x) && |h.L| == LISTLIMIT
    && forall a {:trigger TidyAt(h.B, h.L, a)} :: IsFree(h.B, a) && a != x ==>
         TidyAt(h.B, h.L, a) || (a == x + h.B[x].size && a in h.L[ListIndex(h.B[a].size)])
  }

  /** All is tidy outside the stretch from `lo` to `hi`; no block inside is on a list, and the next one is taken. */
  ghost predicate Cleared(h: Heap, lo: int, hi: int) {
    && Sound(h) && h.brk <= 4 * |h.m| && lo in h.B && hi in h.B && PROLOGUE < lo < hi && h.B[hi].alloc
    && NoneListedIn(h.L, lo, hi)
    && forall a {:trigger TidyAt(h.B, h.L, a)} :: IsFree(h.B, a) && (a < lo || hi <= a) ==> TidyAt(h.B, h.L, a)
  }

  lemma TidyFacts(h: Heap, a: int)
    requires Ready(h) && IsFree(h.B, a)
    ensures TidyAt(h.B, h.L, a)
  {
  }

  /** After a free block comes an allocated one. */
  lemma AfterFree(h: Heap, a: int)
    requires Ready(h) && IsFree(h.B, a)
    ensures a + h.B[a].size in h.B && h.B[a + h.B[a].size].alloc && 16 <= h.B[a].size && PROLOGUE < a
  {
    TileFacts(h.B, h.brk, a);
    assert !IsFree(h.B, a + h.B[a].size) || TidyAt(h.B, h.L, a + h.B[a].size);
  }

  lemma NoneListedJoin(L: Lists, lo: int, mid: int, hi: int)
    requires NoneListedIn(L, lo, mid) && NoneListedIn(L, mid, hi)
    ensures NoneListedIn(L, lo, hi)
  {
  }

  lemma AllocatedNotListed(h: Heap, a: int)
    requires Sound(h) && a in h.B && h.B[a].alloc
    ensures NotListed(h.L, a) && NoneListedIn(h.L, a, a + h.B[a].size)
  {
    NotListedByClass(h.m, h.seg, h.B, h.L, a);
    BlockNotListed(h.m, h.seg, h.B, h.brk, h.L, a);
  }

  /** Only blocks of the tiling are ever listed. */
  lemma StrangerNotListed(h: Heap, lo: int, hi: int, a: int)
    requires SoundBut(h, lo, hi) && a !in h.B
    ensures NotListed(h.L, a)
  {
    forall i | 0 <= i < |h.L| ensures a !in h.L[i] {
      ListFacts(h.m, h.seg, h.B, h.L, i);
      assert forall k :: 0 <= k < |h.L[i]| ==> IsMember(h.B, h.L[i][k], i);
    }
  }

  // ----- list operations

  /** The lists change in nothing but `a`. */
  ghost predicate SameListedBut(L: Lists, L': Lists, a: int) {
    |L'| == |L| == LISTLIMIT && forall i, b :: 0 <= i < LISTLIMIT && b != a ==> (b in L'[i] <==> b in L[i])
  }

  /** From `h` to `h1`, the block at `x` has left its list. */
  ghost predicate Removal(h: Heap, h1: Heap, x: int) {
    && Sound(h1) && h1.B == h.B && h1.brk == h.brk && |h1.m| == |h.m|
    && SameListedBut(h.L, h1.L, x) && NotListed(h1.L, x) && LiveChange(h, h1, 0, 0)
  }

  /** From `h` to `h1`, the free block at `x` has joined the list of its class. */
  ghost predicate Listing(h: Heap, h1: Heap, x: int, lo: int, hi: int) {
    && SoundBut(h1, lo, hi) && h1.B == h.B && h1.brk == h.brk && |h1.m| == |h.m| && NoneListedIn(h1.L, lo, hi + 1)
    && SameListedBut(h.L, h1.L, x) && x in h1.B && x in h1.L[ListIndex(h1.B[x].size)] && LiveChange(h, h1, 0, 0)
  }

  lemma EncodedUnderLinks(m: Memory, m': Memory, B: Blocks, brk: int, lo: int, hi: int)
    requires Tiled(B, brk) && Encoded(m, B, lo, hi) && OnlyLinksDiffer(m, m', B)
    ensures Encoded(m', B, lo, hi)
  {
    forall a | a in B && (a < lo || hi < a) ensures HeaderOk(m', B, a) {
      assert HeaderOk(m, B, a);
      HeaderUnderLinks(m, m', B, brk, a);
    }
  }

  lemma HeaderUnderLinks(m: Memory, m': Memory, B: Blocks, brk: int, a: int)
    requires Tiled(B, brk) && HeaderOk(m, B, a) && OnlyLinksDiffer(m, m', B)
    ensures HeaderOk(m', B, a)
  {
    hide Get, Pack, SizeOf;
    TileFacts(B, brk, a);
    NotALink(B, brk, a, a - 4);
    if !B[a].alloc {
      NotALink(B, brk, a, a + B[a].size - 8);
    }
  }

  /** Neither the header nor the footer of a block is a link word, nor is anything in an allocated block. */
  lemma NotALink(B: Blocks, brk: int, a: int, p: int)
    requires Tiled(B, brk) && a in B
    requires p == a - 4 || (!B[a].alloc && p == a + B[a].size - 8) || (B[a].alloc && a <= p < a + B[a].size - 4)
    ensures !IsFree(B, p) && !IsFree(B, p - 4)
  {
    TileFacts(B, brk, a);
    forall b | IsFree(B, b) ensures p != b && p - 4 != b {
      TileFacts(B, brk, b);
      if b < a {
        Apart(B, brk, b, a);
      } else if a < b {
        Apart(B, brk, a, b);
      }
    }
  }

  /** Rewriting links is invisible to the callers. */
  lemma LinksQuiet(h: Heap, h': Heap)
    requires Tiled(h.B, h.brk) && OnlyLinksDiffer(h.m, h'.m, h.B) && h'.B == h.B && h'.brk == h.brk
    ensures LiveChange(h, h', 0, 0)
  {
    forall a | IsLive(h, a) ensures LiveKept(h, h', a) {
      forall p | a <= p < a + h.B[a].size - 4 ensures Get(h'.m, p) == Get(h.m, p) {
        NotALink(h.B, h.brk, a, p);
      }
    }
  }

  // ----- cuts

  /** Callers' blocks after a cut: those inside go, an allocated new piece comes. */
  lemma CutLive(h: Heap, m': Memory, lo: int, mid: int, hi: int, firstAlloc: bool, secondAlloc: bool, gone: int, came: int)
    requires Tiled(h.B, h.brk) && CutOk(h.B, lo, mid, hi, firstAlloc, secondAlloc) && hi <= h.brk
    requires SameOutside(h.m, m', lo - 4, hi)
    requires forall a :: a in h.B && lo <= a < hi && h.B[a].alloc ==> a == gone
    requires gone == 0 || lo <= gone < hi
    requires came == if firstAlloc then lo else if mid < hi && secondAlloc then mid else 0
    requires firstAlloc && mid < hi ==> !secondAlloc
    ensures LiveChange(h, AfterCut(h, m', lo, mid, hi, firstAlloc, secondAlloc), gone, came)
  {
    var h' := AfterCut(h, m', lo, mid, hi, firstAlloc, secondAlloc);
    forall a | IsLive(h, a) && a != gone ensures LiveKept(h, h', a) {
      CutLiveKept(h, m', lo, mid, hi, firstAlloc, secondAlloc, a);
    }
  }

  lemma CutLiveKept(h: Heap, m': Memory, lo: int, mid: int, hi: int, firstAlloc: bool, secondAlloc: bool, a: int)
    requires Tiled(h.B, h.brk) && CutOk(h.B, lo, mid, hi, firstAlloc, secondAlloc) && hi <= h.brk
    requires SameOutside(h.m, m', lo - 4, hi)
    requires IsLive(h, a) && (a < lo || hi <= a)
    ensures LiveKept(h, AfterCut(h, m', lo, mid, hi, firstAlloc, secondAlloc), a)
  {
    hide Get;
    if a < lo {
      Apart(h.B, h.brk, a, lo);
    }
  }

  /** Cutting leaves everything around it as tidy as it was. */
  lemma CutTidy(h: Heap, m': Memory, lo: int, mid: int, hi: int, firstAlloc: bool, secondAlloc: bool)
    requires Cleared(h, lo, hi) && CutOk(h.B, lo, mid, hi, firstAlloc, secondAlloc)
    ensures var h' := AfterCut(h, m', lo, mid, hi, firstAlloc, secondAlloc);
      && h'.B[hi].alloc
      && forall a :: IsFree(h'.B, a) && a != lo && a != mid ==> TidyAt(h'.B, h'.L, a)
  {
    var h' := AfterCut(h, m', lo, mid, hi, firstAlloc, secondAlloc);
    forall a | IsFree(h'.B, a) && a != lo && a != mid ensures TidyAt(h'.B, h'.L, a) {
      assert a in h.B && h'.B[a] == h.B[a] && IsFree(h.B, a);
      assert TidyAt(h.B, h.L, a);
    }
  }

  /** The blocks of two tilings agree but for a prev_alloc bit at `hi`, outside the stretch. */
  lemma NewBlockFree(h: Heap, m': Memory, lo: int, mid: int, hi: int, firstAlloc: bool, secondAlloc: bool)
    requires Tiled(h.B, h.brk) && CutOk(h.B, lo, mid, hi, firstAlloc, secondAlloc)
    requires lo < mid < hi && h.B[lo].size == hi - lo
    ensures mid !in h.B
  {
    if mid in h.B {
      Apart(h.B, h.brk, lo, mid);
    }
  }

  // ----- around a free block that is on no list yet

  lemma TransitFacts(h: Heap, bp: int)
    requires InTransit(h, bp)
    ensures PROLOGUE < bp && bp % 8 == 0 && 16 <= h.B[bp].size && h.B[bp].size % 8 == 0
    ensures var w := Get(h.m, bp - 4);
      IsCell(h.m, bp - 4) && SizeOf(w) == h.B[bp].size && PrevBit(w) == h.B[bp].prevAlloc
    ensures var next := bp + h.B[bp].size;
      && next in h.B && IsCell(h.m, next - 4) && SizeOf(Get(h.m, next - 4)) == h.B[next].size
      && AllocBit(Get(h.m, next - 4)) == h.B[next].alloc
  {
    TileFacts(h.B, h.brk, bp);
    ReadHeader(h, 1, 0, bp);
    ReadHeader(h, 1, 0, bp + h.B[bp].size);
  }

  /** With both neighbours allocated, listing the block is all that is left to do. */
  lemma TransitReady(h: Heap, h': Heap, bp: int)
    requires InTransit(h, bp) && h.B[bp].prevAlloc && (bp + h.B[bp].size in h.B ==> h.B[bp + h.B[bp].size].alloc)
    requires Listing(h, h', bp, 1, 0)
    ensures Ready(h')
  {
    forall a | IsFree(h'.B, a) ensures TidyAt(h'.B, h'.L, a) {
      if a != bp {
        assert TidyAt(h.B, h.L, a);
      }
    }
  }

  lemma NextFacts(h: Heap, bp: int)
    requires InTransit(h, bp) && IsFree(h.B, bp + h.B[bp].size)
    ensures var next := bp + h.B[bp].size;
      && next in h.L[ListIndex(h.B[next].size)] && 16 <= h.B[next].size && h.B[next].size % 8 == 0
      && next + h.B[next].size in h.B && h.B[next + h.B[next].size].alloc
  {
    var next := bp + h.B[bp].size;
    TileFacts(h.B, h.brk, bp);
    TileFacts(h.B, h.brk, next);
    assert TidyAt(h.B, h.L, next) || next in h.L[ListIndex(h.B[next].size)];
    var after := next + h.B[next].size;
    assert !IsFree(h.B, after) || TidyAt(h.B, h.L, after);
  }

  /** The footer before a block whose prev_alloc bit is clear leads to the previous block. */
  lemma PrevFacts(h: Heap, bp: int) returns (p: int)
    requires InTransit(h, bp) && !h.B[bp].prevAlloc
    ensures IsCell(h.m, bp - 8) && p == bp - SizeOf(Get(h.m, bp - 8))
    ensures IsFree(h.B, p) && PROLOGUE < p && p + h.B[p].size == bp && p in h.L[ListIndex(h.B[p].size)]
    ensures h.B[p].prevAlloc && 16 <= h.B[p].size && h.B[p].size % 8 == 0
  {
    TransitFacts(h, bp);
    p := PreviousBlock(h.B, h.brk, bp);
    TileFacts(h.B, h.brk, p);
    HeaderAt(h, 1, 0, p);
    assert TidyAt(h.B, h.L, p);
  }

  ghost predicate SameListedExcept(L: Lists, L': Lists, R: set<int>) {
    |L'| == |L| == LISTLIMIT && forall i, b :: 0 <= i < LISTLIMIT && b !in R ==> (b in L'[i] <==> b in L[i])
  }

  /** Once the neighbours are off their lists, the stretch they form with `bp` can be rewritten. */
  lemma MakeCleared(h: Heap, h1: Heap, bp: int, lo: int, hi: int, R: set<int>)
    requires InTransit(h, bp) && Sound(h1) && h1.B == h.B && h1.brk == h.brk && |h1.m| == |h.m|
    requires SameListedExcept(h.L, h1.L, R) && bp !in R
    requires forall x :: x in R ==> NotListed(h1.L, x)
    requires lo in h.B && hi in h.B && PROLOGUE < lo < hi && h.B[hi].alloc && bp + h.B[bp].size <= hi
    requires forall a :: a in h.B && lo <= a < hi ==> a == bp || a in R
    requires forall x :: x in R ==> lo <= x < hi
    requires lo <= bp < hi
    ensures Cleared(h1, lo, hi)
  {
    forall i, a | 0 <= i < |h1.L| && a in h1.L[i] ensures a < lo || hi <= a {
      if a !in h.B {
        StrangerNotListed(h1, 1, 0, a);
      }
    }
    TileFacts(h.B, h.brk, bp);
    forall a | IsFree(h1.B, a) && (a < lo || hi <= a) ensures TidyAt(h1.B, h1.L, a) {
      assert a != bp + h.B[bp].size && a !in R;
      assert TidyAt(h.B, h.L, a);
    }
  }

  ghost predicate AllFree(B: Blocks, lo: int, hi: int) {
    forall a :: a in B && lo <= a < hi ==> !B[a].alloc
  }

  /** What `coalesce` may rewrite after taking out its neighbours. */
  ghost predicate Mergeable(h: Heap, lo: int, hi: int) {
    && Cleared(h, lo, hi) && CutOk(h.B, lo, hi, hi, false, false) && PrevOf(h.B, lo) && AllFree(h.B, lo, hi)
  }

  lemma ClearedNext(h: Heap, h1: Heap, bp: int)
    requires InTransit(h, bp) && h.B[bp].prevAlloc && IsFree(h.B, bp + h.B[bp].size)
    requires Removal(h, h1, bp + h.B[bp].size)
    ensures var next := bp + h.B[bp].size; Mergeable(h1, bp, next + h.B[next].size)
  {
    var next := bp + h.B[bp].size;
    var hi := next + h.B[next].size;
    TransitFacts(h, bp);
    NextFacts(h, bp);
    TileFacts(h.B, h.brk, hi);
    forall a | a in h.B && bp <= a < hi ensures a == bp || a == next {
      Between(h.B, h.brk, bp, a);
      Between(h.B, h.brk, next, a);
    }
    MakeCleared(h, h1, bp, bp, hi, {next});
  }

  lemma Between(B: Blocks, brk: int, a: int, x: int)
    requires Tiled(B, brk) && a in B && x in B
    ensures a < x ==> a + B[a].size <= x
  {
    if a < x {
      Apart(B, brk, a, x);
    }
  }

  lemma ClearedPrev(h: Heap, h1: Heap, bp: int, p: int)
    requires InTransit(h, bp) && bp + h.B[bp].size in h.B && h.B[bp + h.B[bp].size].alloc
    requires IsFree(h.B, p) && PROLOGUE < p && p + h.B[p].size == bp && h.B[p].prevAlloc && 16 <= h.B[p].size
    requires Removal(h, h1, p)
    ensures Mergeable(h1, p, bp + h.B[bp].size)
  {
    var hi := bp + h.B[bp].size;
    TransitFacts(h, bp);
    TileFacts(h.B, h.brk, hi);
    forall a | a in h.B && p <= a < hi ensures a == bp || a == p {
      Between(h.B, h.brk, bp, a);
      Between(h.B, h.brk, p, a);
    }
    MakeCleared(h, h1, bp, p, hi, {p});
  }

  lemma ClearedBoth(h: Heap, h1: Heap, h2: Heap, bp: int, p: int)
    requires InTransit(h, bp) && IsFree(h.B, bp + h.B[bp].size)
    requires IsFree(h.B, p) && PROLOGUE < p && p + h.B[p].size == bp && h.B[p].prevAlloc && 16 <= h.B[p].size
    requires Removal(h, h1, p) && Removal(h1, h2, bp + h.B[bp].size)
    ensures var next := bp + h.B[bp].size; Mergeable(h2, p, next + h.B[next].size)
  {
    var next := bp + h.B[bp].size;
    var hi := next + h.B[next].size;
    TransitFacts(h, bp);
    NextFacts(h, bp);
    TileFacts(h.B, h.brk, hi);
    forall a | a in h.B && p <= a < hi ensures a == bp || a == p || a == next {
      Between(h.B, h.brk, bp, a);
      Between(h.B, h.brk, p, a);
      Between(h.B, h.brk, next, a);
    }
    assert forall i :: 0 <= i < |h2.L| ==> (p in h2.L[i] <==> p in h1.L[i]);
    MakeCleared(h, h2, bp, p, hi, {p, next});
  }

  lemma MergeRoom(h: Heap, lo: int, hi: int)
    requires Mergeable(h, lo, hi)
    ensures HasRoom(h.m, lo, hi - lo) && 16 <= hi - lo && PrevOf(h.B, lo)
  {
    RoomFor(h, lo, hi);
  }

  lemma MergeStep(h: Heap, h1: Heap, lo: int, hi: int)
    requires Mergeable(h, lo, hi)
    requires h1 == AfterCut(h, WriteFree(h.m, lo, hi - lo, true), lo, hi, hi, false, false)
    ensures Sound(h1) && LiveChange(h, h1, 0, 0) && IsFree(h1.B, lo) && h1.B[lo].size == hi - lo && NotListed(h1.L, lo)
  {
    SoundButLess(h, 1, 0, lo, hi - 1);
    FreeStep(h, lo, hi);
    BreakFacts(h.B, h.brk);
    CutLive(h, h1.m, lo, hi, hi, false, false, 0, 0);
    CutFacts(h.B, lo, hi, hi, false, false);
    assert forall i :: 0 <= i < |h.L| ==> lo !in h.L[i];
  }

  lemma MergeReady(h: Heap, h1: Heap, h2: Heap, lo: int, hi: int)
    requires Mergeable(h, lo, hi)
    requires h1 == AfterCut(h, WriteFree(h.m, lo, hi - lo, true), lo, hi, hi, false, false) && Listing(h1, h2, lo, 1, 0)
    ensures Ready(h2) && LiveChange(h, h2, 0, 0)
  {
    MergeStep(h, h1, lo, hi);
    LiveChangeThenQuiet(h, h1, h2, 0, 0);
    CutTidy(h, h1.m, lo, hi, hi, false, false);
    CutFacts(h.B, lo, hi, hi, false, false);
    forall a | IsFree(h2.B, a) ensures TidyAt(h2.B, h2.L, a) {
      if a != lo {
        assert TidyAt(h1.B, h1.L, a);
      }
    }
  }

  /** After the rewriting, listing the merged block completes the call. */
  lemma MergePlan(h: Heap, h1: Heap, lo: int, hi: int)
    requires Mergeable(h, lo, hi)
    requires h1 == AfterCut(h, WriteFree(h.m, lo, hi - lo, true), lo, hi, hi, false, false)
    ensures Sound(h1) && IsFree(h1.B, lo) && h1.B[lo].size == hi - lo && NotListed(h1.L, lo)
    ensures forall h2 :: Listing(h1, h2, lo, 1, 0) ==> Ready(h2) && LiveChange(h, h2, 0, 0) && h2.B == h1.B
  {
    MergeStep(h, h1, lo, hi);
    forall h2 | Listing(h1, h2, lo, 1, 0) ensures Ready(h2) && LiveChange(h, h2, 0, 0) && h2.B == h1.B {
      MergeReady(h, h1, h2, lo, hi);
    }
  }

  // ----- growth

  lemma GrowthLive(h: Heap, h': Heap, brk': int)
    requires Tiled(h.B, h.brk) && h.brk + 16 <= brk' && h'.B == Grown(h.B, h.brk, brk') && h'.brk == brk'
    requires SameOutside(h.m, h'.m, h.brk - 4, brk')
    ensures LiveChange(h, h', 0, 0)
  {
    BreakFacts(h.B, h.brk);
    forall a | IsLive(h, a) ensures LiveKept(h, h', a) {
      Apart(h.B, h.brk, a, h.brk);
    }
  }

  // ----- moving contents

  ghost predicate ByteMoved(m: Memory, src: int, m': Memory, dst: int, k: int) {
    Byte(m', dst + k) == Byte(m, src + k)
  }

  /** The first `n` bytes at `dst` are those that used to be at `src`. */
  ghost predicate BytesMoved(m: Memory, src: int, m': Memory, dst: int, n: int) {
    forall k :: 0 <= k < n ==> ByteMoved(m, src, m', dst, k)
  }

  lemma WordsAreBytes(m: Memory, m': Memory, a: int, n: int)
    requires a % 4 == 0 && SameWords(m, m', a, a + n)
    ensures BytesMoved(m, a, m', a, n)
  {
    hide Get, ByteOf;
    forall k | 0 <= k < n ensures ByteMoved(m, a, m', a, k) {
      var p := a + k - (a + k) % 4;
      assert a <= p < a + n;
    }
  }

  lemma BytesMovedThen(m: Memory, src: int, m1: Memory, dst: int, m2: Memory, n: int)
    requires dst % 4 == 0 && BytesMoved(m, src, m1, dst, n) && SameWords(m1, m2, dst, dst + n)
    ensures BytesMoved(m, src, m2, dst, n)
  {
    WordsAreBytes(m1, m2, dst, n);
    hide Byte;
    forall k | 0 <= k < n ensures ByteMoved(m, src, m2, dst, k) {
      assert ByteMoved(m, src, m1, dst, k) && ByteMoved(m1, dst, m2, dst, k);
    }
  }
}
