/** Blocks tiling the heap from the prologue to the epilogue, and their encoding in memory.

    `Blocks` maps the payload address of every block, the prologue at 8 and the epilogue at the
    break included, to its header.  A `Cut` replaces the blocks of one stretch by one or two new
    ones; every change the allocator makes to the tiling is a cut or a growth at the end.
 */
module SegLayout {
  import opened SegWords

  datatype Block = Block(size: int, prevAlloc: bool, alloc: bool)

  type Blocks = map<int, Block>

  const PROLOGUE := 8

  ghost predicate TileOk(B: Blocks, brk: int, a: int)
    requires a in B
  {
    && a % 8 == 0 && PROLOGUE <= a <= brk
    && (a == brk <==> B[a].size == 0)
    && (a != brk ==>
          && B[a].size % 8 == 0 && 8 <= B[a].size
          && (!B[a].alloc ==> 16 <= B[a].size)
          && a + B[a].size in B && B[a + B[a].size].prevAlloc == B[a].alloc)
  }

  /** The blocks cover everything from the prologue to the break, without overlap, every
      prev_alloc bit tells the truth, and every free block has room for two links and a footer. */
  ghost predicate Tiled(B: Blocks, brk: int) {
    && PROLOGUE in B && B[PROLOGUE] == Block(8, true, true)
    && brk in B && B[brk].alloc
    && (forall a {:trigger TileOk(B, brk, a)} :: a in B ==> TileOk(B, brk, a))
    && (forall a, b {:trigger EndsBefore(B, a, b)} :: a in B && b in B && a < b ==> EndsBefore(B, a, b))
  }

  ghost predicate EndsBefore(B: Blocks, a: int, b: int)
    requires a in B
  {
    a + B[a].size <= b
  }

  lemma TileFacts(B: Blocks, brk: int, a: int)
    requires Tiled(B, brk) && a in B
    ensures TileOk(B, brk, a)
    ensures a == brk ==> B[a].alloc
  {
  }

  lemma BreakFacts(B: Blocks, brk: int)
    requires Tiled(B, brk)
    ensures PROLOGUE < brk && brk % 8 == 0 && B[brk].size == 0
    ensures forall a :: a in B ==> a <= brk
  {
    TileFacts(B, brk, PROLOGUE);
    TileFacts(B, brk, PROLOGUE + 8);
    TileFacts(B, brk, brk);
    forall a | a in B ensures a <= brk {
      TileFacts(B, brk, a);
    }
  }

  lemma Apart(B: Blocks, brk: int, a: int, b: int)
    requires Tiled(B, brk) && a in B && b in B && a < b
    ensures a + B[a].size <= b
  {
    assert EndsBefore(B, a, b);
  }

  /** A block whose prev_alloc bit is clear has a free block right before it. */
  lemma PreviousBlock(B: Blocks, brk: int, a: int) returns (p: int)
    requires Tiled(B, brk) && a in B && a != PROLOGUE
    ensures p in B && p != brk && p + B[p].size == a && B[p].alloc == B[a].prevAlloc
  {
    TileFacts(B, brk, a);
    p := PROLOGUE;
    Apart(B, brk, p, a);
    while p + B[p].size != a
      invariant p in B && p < a && p + B[p].size <= a
      decreases a - p
    {
      TileFacts(B, brk, p);
      p := p + B[p].size;
      TileFacts(B, brk, p);
      Apart(B, brk, p, a);
    }
    TileFacts(B, brk, p);
  }

  // ----- changing the tiling

  /** The blocks between `lo` and `hi` replaced by `[lo, mid)` and, when `mid < hi`, `[mid, hi)`. */
  ghost function Cut(B: Blocks, lo: int, mid: int, hi: int, firstAlloc: bool, secondAlloc: bool): Blocks {
    map a | a in B.Keys + {mid} && (a <= lo || a == mid || hi <= a) ::
      if a == lo then Block(mid - lo, PrevOf(B, lo), firstAlloc)
      else if a !in B || (a == mid && mid < hi) then Block(hi - mid, firstAlloc, secondAlloc)
      else if a == hi then B[hi].(prevAlloc := if mid == hi then firstAlloc else secondAlloc)
      else B[a]
  }

  ghost function PrevOf(B: Blocks, a: int): bool {
    a in B && B[a].prevAlloc
  }

  ghost predicate CutOk(B: Blocks, lo: int, mid: int, hi: int, firstAlloc: bool, secondAlloc: bool) {
    && lo in B && hi in B && PROLOGUE < lo < mid <= hi && mid % 8 == 0
    && (firstAlloc || 16 <= mid - lo)
    && (mid < hi ==> secondAlloc || 16 <= hi - mid)
  }

  lemma CutFacts(B: Blocks, lo: int, mid: int, hi: int, firstAlloc: bool, secondAlloc: bool)
    requires CutOk(B, lo, mid, hi, firstAlloc, secondAlloc)
    ensures var C := Cut(B, lo, mid, hi, firstAlloc, secondAlloc);
      && lo in C && C[lo] == Block(mid - lo, PrevOf(B, lo), firstAlloc)
      && hi in C && C[hi] == B[hi].(prevAlloc := if mid == hi then firstAlloc else secondAlloc)
      && mid in C && (mid < hi ==> C[mid] == Block(hi - mid, firstAlloc, secondAlloc))
    ensures lo in B && hi in B && PROLOGUE < lo < mid <= hi
  {
  }

  lemma CutTiled(B: Blocks, brk: int, lo: int, mid: int, hi: int, firstAlloc: bool, secondAlloc: bool)
    requires Tiled(B, brk) && CutOk(B, lo, mid, hi, firstAlloc, secondAlloc)
    ensures Tiled(Cut(B, lo, mid, hi, firstAlloc, secondAlloc), brk)
  {
    var C := Cut(B, lo, mid, hi, firstAlloc, secondAlloc);
    forall a | a in C ensures TileOk(C, brk, a) {
      CutTile(B, brk, lo, mid, hi, firstAlloc, secondAlloc, a);
    }
    forall a, b | a in C && b in C && a < b ensures EndsBefore(C, a, b) {
      CutApart(B, brk, lo, mid, hi, firstAlloc, secondAlloc, a, b);
    }
    TileFacts(B, brk, brk);
    TileFacts(B, brk, lo);
    TileFacts(B, brk, hi);
  }

  lemma CutTile(B: Blocks, brk: int, lo: int, mid: int, hi: int, firstAlloc: bool, secondAlloc: bool, a: int)
    requires Tiled(B, brk) && CutOk(B, lo, mid, hi, firstAlloc, secondAlloc)
    requires a in Cut(B, lo, mid, hi, firstAlloc, secondAlloc)
    ensures TileOk(Cut(B, lo, mid, hi, firstAlloc, secondAlloc), brk, a)
  {
    TileFacts(B, brk, lo);
    TileFacts(B, brk, hi);
    Apart(B, brk, lo, hi);
    if a < lo {
      TileFacts(B, brk, a);
      Apart(B, brk, a, lo);
      CutBefore(B, lo, mid, hi, firstAlloc, secondAlloc, a + B[a].size);
    } else if a > hi {
      TileFacts(B, brk, a);
    }
  }

  lemma CutBefore(B: Blocks, lo: int, mid: int, hi: int, firstAlloc: bool, secondAlloc: bool, a: int)
    requires CutOk(B, lo, mid, hi, firstAlloc, secondAlloc) && a in B && a <= lo
    ensures var C := Cut(B, lo, mid, hi, firstAlloc, secondAlloc); a in C && C[a].prevAlloc == B[a].prevAlloc
  {
  }

  lemma CutApart(B: Blocks, brk: int, lo: int, mid: int, hi: int, firstAlloc: bool, secondAlloc: bool, a: int, b: int)
    requires Tiled(B, brk) && CutOk(B, lo, mid, hi, firstAlloc, secondAlloc)
    requires var C := Cut(B, lo, mid, hi, firstAlloc, secondAlloc); a in C && b in C && a < b
    ensures a + Cut(B, lo, mid, hi, firstAlloc, secondAlloc)[a].size <= b
  {
    TileFacts(B, brk, lo);
    TileFacts(B, brk, hi);
    if a in B && a < lo {
      Apart(B, brk, a, lo);
    }
    if a in B && a >= hi && b in B {
      Apart(B, brk, a, b);
    }
    if a in B && b in B && a < lo && b < lo {
      Apart(B, brk, a, b);
    }
  }

  /** The heap grown to `brk'`: the old epilogue becomes the header of a free block. */
  ghost function Grown(B: Blocks, brk: int, brk': int): Blocks {
    B[brk := Block(brk' - brk, PrevOf(B, brk), false)][brk' := Block(0, false, true)]
  }

  lemma GrownIsCut(B: Blocks, brk: int, brk': int)
    requires Tiled(B, brk) && brk + 16 <= brk' && brk' % 8 == 0
    ensures var G := Grown(B, brk, brk');
      && Cut(G, brk, brk', brk', false, false) == G && CutOk(G, brk, brk', brk', false, false)
      && G[brk] == Block(brk' - brk, PrevOf(B, brk), false) && G[brk'] == Block(0, false, true)
  {
    BreakFacts(B, brk);
  }

  lemma GrownCutFacts(B: Blocks, brk: int, lo: int, brk': int)
    requires Tiled(B, brk) && brk + 16 <= brk' && brk' % 8 == 0 && lo in B && PROLOGUE < lo < brk
    ensures var G := Grown(B, brk, brk'); var C := Cut(G, lo, brk', brk', true, true);
      && lo in C && C[lo] == Block(brk' - lo, PrevOf(B, lo), true) && brk' in C && C[brk'] == Block(0, true, true)
      && CutOk(G, lo, brk', brk', true, true)
  {
  }

  lemma GrownTiled(B: Blocks, brk: int, brk': int)
    requires Tiled(B, brk) && brk + 16 <= brk' && (brk' - brk) % 8 == 0
    ensures Tiled(Grown(B, brk, brk'), brk')
  {
    var C := Grown(B, brk, brk');
    TileFacts(B, brk, PROLOGUE);
    TileFacts(B, brk, brk);
    forall a | a in C ensures TileOk(C, brk', a) {
      if a in B {
        TileFacts(B, brk, a);
        if a < brk {
          TileFacts(B, brk, a + B[a].size);
        }
      }
    }
    forall a, b | a in C && b in C && a < b ensures EndsBefore(C, a, b) {
      if a in B {
        TileFacts(B, brk, a);
        if a < brk {
          Apart(B, brk, a, brk);
          if b in B {
            Apart(B, brk, a, b);
          }
        }
      }
      if b in B {
        TileFacts(B, brk, b);
      }
    }
  }
}
