/** The Pintos kernel's malloc: descriptors, arenas and blocks, and what holds of them between calls.

    A page is named by its number, an address is a byte offset; page 0 holds the null pointer. */
module ArenaState {

  const PGSIZE := 4096
  /** The size of an arena header: a magic number, a pointer, and a count. */
  const HEADER := 24
  const DESC_CNT := 7

  /** Block sizes double from 16 while they stay below half a page. */
  function BlockSize(d: nat): nat {
    if d == 0 then 16 else if d == 1 then 32 else if d == 2 then 64 else if d == 3 then 128
    else if d == 4 then 256 else if d == 5 then 512 else 1024
  }

  function BlocksPerArena(d: nat): nat {
    (PGSIZE - HEADER) / BlockSize(d)
  }

  lemma SizesDouble(d: nat)
    requires d < DESC_CNT
    ensures 16 <= BlockSize(d) < PGSIZE / 2 && BlocksPerArena(d) >= 3
    ensures d + 1 < DESC_CNT ==> BlockSize(d + 1) == 2 * BlockSize(d)
    ensures d + 1 == DESC_CNT ==> 2 * BlockSize(d) >= PGSIZE / 2
  {
  }

  /** An arena of blocks of one descriptor with a count of its free blocks, or one big block of some pages. */
  datatype Arena = Small(d: nat, free_cnt: nat) | Big(page_cnt: nat)

  /** `arena_to_block`. */
  function BlockAt(p: nat, d: nat, i: nat): nat {
    p * PGSIZE + HEADER + i * BlockSize(d)
  }

  /** `pg_round_down`. */
  function PageOf(b: nat): nat {
    b / PGSIZE
  }

  function IndexOf(b: nat, d: nat): nat {
    if b % PGSIZE < HEADER then 0 else (b % PGSIZE - HEADER) / BlockSize(d)
  }

  lemma BlockInPage(d: nat, i: nat)
    requires d < DESC_CNT && i < BlocksPerArena(d)
    ensures i * BlockSize(d) + BlockSize(d) <= PGSIZE - HEADER
  {
  }

  lemma Exact(d: nat, i: nat)
    ensures i * BlockSize(d) / BlockSize(d) == i && i * BlockSize(d) % 8 == 0
  {
    var o := i * BlockSize(d);
    if d == 0 { assert o == i * 16; } else if d == 1 { assert o == i * 32; } else if d == 2 { assert o == i * 64; }
    else if d == 3 { assert o == i * 128; } else if d == 4 { assert o == i * 256; } else if d == 5 { assert o == i * 512; }
    else { assert o == i * 1024; }
  }

  lemma InPage(p: nat, o: nat)
    requires o < PGSIZE
    ensures (p * PGSIZE + o) / PGSIZE == p && (p * PGSIZE + o) % PGSIZE == o
  {
  }

  lemma EighthsOf(p: nat, o: nat)
    requires o % 8 == 0
    ensures (p * PGSIZE + HEADER + o) % 8 == 0
  {
    assert p * PGSIZE + HEADER + o == 8 * (p * 512 + 3 + o / 8);
  }

  lemma BlockFacts(p: nat, d: nat, i: nat)
    requires d < DESC_CNT && i < BlocksPerArena(d)
    ensures var b := BlockAt(p, d, i);
            PageOf(b) == p && b % PGSIZE == HEADER + i * BlockSize(d) && IndexOf(b, d) == i && b % 8 == 0
  {
    BlockInPage(d, i);
    Exact(d, i);
    var o := i * BlockSize(d);
    AtOffset(p, o);
    assert BlockAt(p, d, i) == p * PGSIZE + HEADER + o;
    hide BlockSize, BlocksPerArena;
  }

  lemma AtOffset(p: nat, o: nat)
    requires HEADER + o < PGSIZE && o % 8 == 0
    ensures var b := p * PGSIZE + HEADER + o; PageOf(b) == p && b % PGSIZE == HEADER + o && b % 8 == 0
  {
    InPage(p, HEADER + o);
    EighthsOf(p, o);
  }

  lemma BlocksApart(d: nat, i: nat, j: nat)
    requires d < DESC_CNT && i < j
    ensures i * BlockSize(d) + BlockSize(d) <= j * BlockSize(d)
  {
  }

  // ----- the state

  /** `pages` are the free pages of the page allocator, out of pages 1 to `limit` - 1. */
  datatype State = State(arenas: map<nat, Arena>, lists: seq<seq<nat>>, pages: set<nat>, limit: nat)

  ghost predicate Distinct(s: seq<nat>) {
    forall i, j :: 0 <= i < j < |s| ==> s[i] != s[j]
  }

  /** `b` is the address of a block of an arena of descriptor `d`. */
  ghost predicate IsBlock(k: State, b: nat, d: nat) {
    && PageOf(b) in k.arenas && k.arenas[PageOf(b)].Small? && k.arenas[PageOf(b)].d == d
    && IndexOf(b, d) < BlocksPerArena(d) && b == BlockAt(PageOf(b), d, IndexOf(b, d))
  }

  ghost predicate ListOk(k: State, d: nat)
    requires d < |k.lists|
  {
    Distinct(k.lists[d]) && forall b :: b in k.lists[d] ==> IsBlock(k, b, d)
  }

  /** The indices of the free blocks of arena `p`. */
  ghost function FreeBlocks(list: seq<nat>, p: nat, d: nat): set<nat> {
    set i: nat | i < BlocksPerArena(d) && BlockAt(p, d, i) in list
  }

  function Span(a: Arena): nat {
    match a case Small(_, _) => 1 case Big(n) => n
  }

  /** The count of an arena is exact, and not all its blocks are free, unless it is arena `full`. */
  ghost predicate ArenaOk(k: State, p: nat, full: nat)
    requires p in k.arenas
  {
    match k.arenas[p]
    case Small(d, c) => d < DESC_CNT && d < |k.lists| && c == |FreeBlocks(k.lists[d], p, d)| && (c < BlocksPerArena(d) || p == full)
    case Big(n) => n > 0
  }

  ghost predicate InSpan(k: State, p: nat, x: nat)
    requires p in k.arenas
  {
    p <= x < p + Span(k.arenas[p])
  }

  /** Every page is free or belongs to at most one arena. */
  ghost predicate PagesOk(k: State) {
    && (forall x :: x in k.pages ==> 1 <= x < k.limit)
    && (forall p :: p in k.arenas ==> 1 <= p && p + Span(k.arenas[p]) <= k.limit)
    && (forall p, x :: p in k.arenas && x in k.pages ==> !InSpan(k, p, x))
    && forall p, q, x :: p in k.arenas && q in k.arenas && InSpan(k, p, x) && InSpan(k, q, x) ==> p == q
  }

  /** No page is lost: each is free or belongs to an arena. */
  ghost predicate NoPageLost(k: State) {
    forall x :: 1 <= x < k.limit ==> x in k.pages || Owned(k, x)
  }

  ghost predicate Owned(k: State, x: nat) {
    exists p :: p in k.arenas && InSpan(k, p, x)
  }

  ghost predicate OkBut(k: State, full: nat) {
    && |k.lists| == DESC_CNT && PagesOk(k) && NoPageLost(k)
    && (forall d {:trigger ListOk(k, d)} :: 0 <= d < DESC_CNT ==> ListOk(k, d))
    && forall p {:trigger ArenaOk(k, p, full)} :: p in k.arenas ==> ArenaOk(k, p, full)
  }

  /** Holds between calls: counts are exact, and no arena is wholly free. */
  ghost predicate Ok(k: State) {
    OkBut(k, 0)
  }

  // ----- live blocks

  ghost predicate Live(k: State, b: nat) {
    && PageOf(b) in k.arenas
    && match k.arenas[PageOf(b)]
       case Small(d, _) => d < |k.lists| && IsBlock(k, b, d) && b !in k.lists[d]
       case Big(_) => b == PageOf(b) * PGSIZE + HEADER
  }

  /** `block_size`. */
  function SizeOf(k: State, b: nat): nat {
    if PageOf(b) !in k.arenas then 0
    else match k.arenas[PageOf(b)]
      case Small(d, _) => BlockSize(d)
      case Big(n) => if PGSIZE * n >= b % PGSIZE then PGSIZE * n - b % PGSIZE else 0
  }

  ghost predicate Within(b: nat, size: nat, p: nat, n: nat) {
    p * PGSIZE + HEADER <= b && b + size <= (p + n) * PGSIZE
  }

  /** A live block lies in its arena's pages, behind the header. */
  lemma LiveInSpan(k: State, b: nat)
    requires Ok(k) && Live(k, b)
    ensures Within(b, SizeOf(k, b), PageOf(b), Span(k.arenas[PageOf(b)])) && SizeOf(k, b) > 0
  {
    var p := PageOf(b);
    assert ArenaOk(k, p, 0);
    match k.arenas[p]
    case Small(d, _) =>
      BlockFacts(p, d, IndexOf(b, d));
      BlockInPage(d, IndexOf(b, d));
    case Big(n) =>
      InPage(p, HEADER);
  }

  /** Live blocks share no byte, neither with each other nor with the header of any arena. */
  lemma LiveApart(k: State, b: nat, c: nat)
    requires Ok(k) && Live(k, b) && Live(k, c) && b != c
    ensures b + SizeOf(k, b) <= c || c + SizeOf(k, c) <= b
  {
    LiveInSpan(k, b);
    LiveInSpan(k, c);
    var p, q := PageOf(b), PageOf(c);
    if p != q {
      SpansApart(k, p, q);
    } else {
      assert ArenaOk(k, p, 0);
      var d := k.arenas[p].d;
      BlockFacts(p, d, IndexOf(b, d));
      BlockFacts(p, d, IndexOf(c, d));
      if IndexOf(b, d) < IndexOf(c, d) { BlocksApart(d, IndexOf(b, d), IndexOf(c, d)); }
      else { BlocksApart(d, IndexOf(c, d), IndexOf(b, d)); }
    }
  }

  lemma SpansApart(k: State, p: nat, q: nat)
    requires PagesOk(k) && p in k.arenas && q in k.arenas && p != q && Span(k.arenas[p]) > 0 && Span(k.arenas[q]) > 0
    ensures p + Span(k.arenas[p]) <= q || q + Span(k.arenas[q]) <= p
  {
    if p < q { assert !InSpan(k, p, q) by { assert InSpan(k, q, q); } } else { assert !InSpan(k, q, p) by { assert InSpan(k, p, p); } }
  }

  lemma HeadersApart(k: State, b: nat, q: nat)
    requires Ok(k) && Live(k, b) && q in k.arenas
    ensures b + SizeOf(k, b) <= q * PGSIZE || q * PGSIZE + HEADER <= b
  {
    LiveInSpan(k, b);
    assert ArenaOk(k, q, 0) && ArenaOk(k, PageOf(b), 0);
    if q != PageOf(b) { SpansApart(k, PageOf(b), q); }
  }

  // ----- pages and live blocks

  ghost function Indices(n: nat): set<nat> {
    if n == 0 then {} else Indices(n - 1) + {n - 1}
  }

  lemma {:induction false} RangeSize(n: nat)
    ensures |Indices(n)| == n && forall i: nat :: i in Indices(n) <==> i < n
  {
    if n > 0 { RangeSize(n - 1); }
  }

  lemma {:induction false} Subset(a: set<nat>, b: set<nat>)
    requires a <= b
    ensures |a| <= |b| && (|a| == |b| ==> a == b)
  {
    if a != {} {
      var x :| x in a;
      Subset(a - {x}, b - {x});
      assert a == (a - {x}) + {x} && b == (b - {x}) + {x};
    }
  }

  lemma FullAtMost(list: seq<nat>, p: nat, d: nat)
    ensures |FreeBlocks(list, p, d)| <= BlocksPerArena(d)
    ensures |FreeBlocks(list, p, d)| == BlocksPerArena(d) ==> forall i: nat :: i < BlocksPerArena(d) ==> BlockAt(p, d, i) in list
    ensures |FreeBlocks(list, p, d)| < BlocksPerArena(d) ==> exists i: nat :: i < BlocksPerArena(d) && BlockAt(p, d, i) !in list
  {
    var all := Indices(BlocksPerArena(d));
    RangeSize(BlocksPerArena(d));
    Subset(FreeBlocks(list, p, d), all);
    hide BlockAt, BlocksPerArena;
    if |FreeBlocks(list, p, d)| == BlocksPerArena(d) {
      forall i: nat | i < BlocksPerArena(d) ensures BlockAt(p, d, i) in list {
        assert i in all;
        assert i in FreeBlocks(list, p, d);
      }
    }
    if forall i: nat :: i < BlocksPerArena(d) ==> BlockAt(p, d, i) in list {
      assert FreeBlocks(list, p, d) == all;
    }
  }

  /** Between calls every arena holds a live block. */
  lemma SomeLive(k: State, p: nat)
    requires Ok(k) && p in k.arenas
    ensures exists b :: Live(k, b) && PageOf(b) == p
  {
    assert ArenaOk(k, p, 0) && InSpan(k, p, p);
    match k.arenas[p]
    case Small(d, c) =>
      FullAtMost(k.lists[d], p, d);
      var i: nat :| i < BlocksPerArena(d) && BlockAt(p, d, i) !in k.lists[d];
      BlockFacts(p, d, i);
      assert Live(k, BlockAt(p, d, i));
    case Big(n) =>
      InPage(p, HEADER);
      assert Live(k, p * PGSIZE + HEADER);
  }

  /** No page leaks: a page of the pool is free exactly when no live block's arena covers it. */
  lemma FreeIffUnused(k: State, x: nat)
    requires Ok(k) && 1 <= x < k.limit
    ensures x in k.pages <==> forall b :: Live(k, b) ==> !InSpan(k, PageOf(b), x)
  {
    if x in k.pages {
      forall b | Live(k, b) ensures !InSpan(k, PageOf(b), x) { assert PagesOk(k); }
    } else {
      var p :| p in k.arenas && InSpan(k, p, x);
      SomeLive(k, p);
    }
    hide Live;
  }

  lemma HasFirst(s: seq<nat>)
    ensures s != [] ==> exists b :: b in s
  {
    if s != [] { assert s[0] in s; }
  }

  /** Once nothing is live every page is free again. */
  lemma NothingLive(k: State)
    requires Ok(k) && forall b :: !Live(k, b)
    ensures forall x :: x in k.pages <==> 1 <= x < k.limit
    ensures k.arenas == map[] && forall d :: 0 <= d < DESC_CNT ==> k.lists[d] == []
  {
    forall p ensures p !in k.arenas { if p in k.arenas { SomeLive(k, p); } }
    forall d | 0 <= d < DESC_CNT ensures k.lists[d] == [] {
      assert ListOk(k, d);
      assert forall b :: b in k.lists[d] ==> IsBlock(k, b, d);
      HasFirst(k.lists[d]);
    }
    hide Live;
  }

  /** No other block of the arena of `b` is live. */
  ghost predicate OnlyOne(k: State, b: nat) {
    forall c :: Live(k, c) && PageOf(c) == PageOf(b) ==> c == b
  }
}
