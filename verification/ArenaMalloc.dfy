/** malloc, realloc and free of threads/malloc.c over a pool of pages. */
module ArenaMalloc {
  import opened ArenaState
  import opened ArenaSteps

  const NULL: nat := 0
  const CLEARED := 0xcc

  function Min(a: nat, b: nat): nat {
    if a < b then a else b
  }

  /** Pages for a big block of `size` bytes and its header. */
  function PageCount(size: nat): nat {
    (size + HEADER + PGSIZE - 1) / PGSIZE
  }

  const SIZE_T: nat := 0x1_0000_0000_0000_0000

  /** The same in the 64-bit arithmetic of size_t. */
  function PageCountWrapped(size: nat): nat {
    (size + HEADER + PGSIZE - 1) % SIZE_T / PGSIZE
  }

  /** The pages computed are enough if and only if the sum does not wrap around. */
  lemma PageCountIsEnough(size: nat)
    requires size < SIZE_T
    ensures PageCountWrapped(size) * PGSIZE >= size + HEADER <==> size + HEADER + PGSIZE - 1 < SIZE_T
    ensures size + HEADER + PGSIZE - 1 < SIZE_T ==> PageCountWrapped(size) == PageCount(size)
  {
    var sum := size + HEADER + PGSIZE - 1;
    if sum < SIZE_T {
      assert sum % SIZE_T == sum;
      RoundsUp(size + HEADER);
    } else {
      assert sum % SIZE_T == sum - SIZE_T;
      RoundsDown(sum - SIZE_T);
    }
  }

  lemma RoundsUp(n: nat)
    ensures (n + PGSIZE - 1) / PGSIZE * PGSIZE >= n
  {
  }

  lemma RoundsDown(n: nat)
    ensures n / PGSIZE * PGSIZE <= n
  {
  }

  /** The smallest descriptor for blocks of `size` bytes, or DESC_CNT. */
  ghost predicate IsDescFor(d: nat, size: nat) {
    d <= DESC_CNT && (d < DESC_CNT ==> BlockSize(d) >= size) && forall e :: 0 <= e < d ==> BlockSize(e) < size
  }

  /** A block of `n` bytes is as small as can be for `size` bytes: the least of the descriptors' sizes that will
      do, or as many whole pages as it takes, less the header. */
  ghost predicate Fits(n: nat, size: nat) {
    && n >= size
    && if size <= 1024 then (exists d :: 0 <= d < DESC_CNT && n == BlockSize(d)) && (n > 16 ==> n / 2 < size)
       else (n + HEADER) % PGSIZE == 0 && n < size + PGSIZE
  }

  lemma FitsHolds(n: nat, size: nat)
    requires Fits(n, size)
    ensures n >= size
  {
  }

  lemma DescFits(d: nat, size: nat)
    requires IsDescFor(d, size)
    ensures d < DESC_CNT ==> Fits(BlockSize(d), size)
    ensures d == DESC_CNT ==> Fits(PageCount(size) * PGSIZE - HEADER, size)
  {
    if d < DESC_CNT {
      assert d > 0 ==> BlockSize(d - 1) < size;
    } else {
      assert BlockSize(DESC_CNT - 1) < size;
      PagesFit(size);
    }
  }

  lemma PagesFit(size: nat)
    ensures var n := PageCount(size) * PGSIZE; n >= size + HEADER && n % PGSIZE == 0 && n < size + HEADER + PGSIZE
  {
    RoundsUp(size + HEADER);
    RoundsDown(size + HEADER + PGSIZE - 1);
  }

  /** What a request takes: from a free list that has a block, the first one and no page; else one page for a
      new arena, or the pages of a big block. */
  ghost predicate Takes(k: State, k': State, b: nat, d: nat, size: nat) {
    if d < DESC_CNT && d < |k.lists| && k.lists[d] != [] then b == k.lists[d][0] && k'.pages == k.pages
    else var n := if d < DESC_CNT then 1 else PageCount(size);
         FreeRun(k.pages, PageOf(b), n) && k'.pages == k.pages - Run(PageOf(b), n)
  }

  /** No memory for a request that descriptor `d` handles. */
  ghost predicate NoRoom(k: State, d: nat, size: nat) {
    if d < DESC_CNT then d < |k.lists| && k.lists[d] == [] && k.pages == {}
    else forall p: nat :: !FreeRun(k.pages, p, PageCount(size))
  }

  /** No memory for `size` bytes. */
  ghost predicate CannotServe(k: State, size: nat) {
    exists d :: IsDescFor(d, size) && NoRoom(k, d, size)
  }

  class Kernel {
    var arenas: map<nat, Arena>
    var free_lists: seq<seq<nat>>
    var pages: set<nat>
    const limit: nat
    const bytes: array<int>

    ghost function S(): State
      reads this
    {
      State(arenas, free_lists, pages, limit)
    }

    ghost predicate Valid()
      reads this
    {
      Ok(S()) && bytes.Length == limit * PGSIZE
    }

    /** `malloc_init`, over a pool of `limit` pages, the first of which is never handed out. */
    constructor (limit: nat)
      ensures Valid() && this.limit == limit && forall b :: !Live(S(), b)
    {
      this.limit := limit;
      arenas := map[];
      free_lists := seq(DESC_CNT, _ => []);
      pages := Run(1, if limit > 0 then limit - 1 else 0);
      bytes := new int[limit * PGSIZE];
      new;
      RunMembers(1, if limit > 0 then limit - 1 else 0);
      forall d | 0 <= d < DESC_CNT ensures ListOk(S(), d) { assert free_lists[d] == []; }
    }

    /** `palloc_get_page`: any free page. */
    method PallocGetPage() returns (p: nat)
      requires PagesOk(S())
      modifies this`pages
      ensures if old(pages) == {} then p == NULL && pages == {} else p in old(pages) && p > 0 && pages == old(pages) - {p}
    {
      if pages == {} { return NULL; }
      p :| p in pages;
      pages := pages - {p};
    }

    /** `palloc_get_multiple`: the first run of `n` free pages. */
    method PallocGetMultiple(n: nat) returns (p: nat)
      requires PagesOk(S()) && n > 0
      modifies this`pages
      ensures p == NULL ==> pages == old(pages) && forall q: nat :: !FreeRun(pages, q, n)
      ensures p != NULL ==> FreeRun(old(pages), p, n) && pages == old(pages) - Run(p, n)
    {
      assert 0 !in pages;
      p := 1;
      while p < limit
        invariant p >= 1 && forall q: nat :: q < p ==> !FreeRun(pages, q, n)
      {
        var i := 0;
        while i < n && p + i in pages
          invariant i <= n && FreeRun(pages, p, i)
        {
          i := i + 1;
        }
        if i == n { Take(p, n); return; }
        assert !FreeRun(pages, p, n);
        p := p + 1;
      }
      forall q: nat ensures !FreeRun(pages, q, n) { assert q >= p ==> q !in pages; }
      p := NULL;
    }

    method Take(p: nat, n: nat)
      modifies this`pages
      ensures pages == old(pages) - Run(p, n)
    {
      var i := 0;
      while i < n
        invariant i <= n && pages == old(pages) - Run(p, i)
      {
        pages := pages - {p + i};
        i := i + 1;
      }
    }

    method DescFor(size: nat) returns (d: nat)
      ensures IsDescFor(d, size)
    {
      d := 0;
      while d < DESC_CNT
        invariant d <= DESC_CNT && forall e :: 0 <= e < d ==> BlockSize(e) < size
      {
        if BlockSize(d) >= size { return; }
        d := d + 1;
      }
    }

    /** A new arena's blocks all go onto the free list, in order. */
    method NewArena(d: nat, p: nat)
      requires d < |free_lists| && free_lists[d] == []
      modifies this`arenas, this`free_lists
      ensures arenas == old(arenas)[p := Small(d, BlocksPerArena(d))]
      ensures free_lists == old(free_lists)[d := BlocksOf(p, d, BlocksPerArena(d))]
    {
      arenas := arenas[p := Small(d, BlocksPerArena(d))];
      var i := 0;
      assert BlocksOf(p, d, 0) == [] && free_lists == free_lists[d := []];
      while i < BlocksPerArena(d)
        invariant i <= BlocksPerArena(d) && free_lists == old(free_lists)[d := BlocksOf(p, d, i)]
        invariant arenas == old(arenas)[p := Small(d, BlocksPerArena(d))]
      {
        free_lists := free_lists[d := free_lists[d] + [BlockAt(p, d, i)]];
        assert BlocksOf(p, d, i + 1) == BlocksOf(p, d, i) + [BlockAt(p, d, i)];
        i := i + 1;
      }
    }

    /** `malloc`: NULL for no bytes or when there is no room; else the address of a block of at least `size`
        bytes that was not live. */
    method Malloc(size: nat) returns (b: nat)
      requires Valid()
      modifies this
      ensures Valid()
      ensures b == NULL <==> size == 0 || CannotServe(old(S()), size)
      ensures b == NULL ==> S() == old(S())
      ensures b != NULL ==> Allocated(old(S()), S(), b, size)
      ensures b != NULL ==> exists d :: IsDescFor(d, size) && Takes(old(S()), S(), b, d, size)
    {
      if size == 0 { return NULL; }
      var d := DescFor(size);
      if d == DESC_CNT {
        b := MallocBig(size, d);
      } else {
        b := MallocSmall(size, d);
      }
      OneDesc(d, size);
      hide NoRoom, Allocated, Ok, IsDescFor, Takes;
    }

    method MallocBig(size: nat, ghost d: nat) returns (b: nat)
      requires Valid() && d == DESC_CNT && IsDescFor(d, size)
      modifies this
      ensures Valid() && (b == NULL <==> NoRoom(old(S()), d, size))
      ensures b == NULL ==> S() == old(S())
      ensures b != NULL ==> Allocated(old(S()), S(), b, size) && Takes(old(S()), S(), b, d, size)
    {
      var page_cnt := PageCount(size);
      assert page_cnt > 0;
      DescFits(d, size);
      var p := PallocGetMultiple(page_cnt);
      if p == NULL { return NULL; }
      BigKeeps(old(S()), p, page_cnt);
      hide Ok;
      arenas := arenas[p := Big(page_cnt)];
      assert S() == WithBig(old(S()), p, page_cnt);
      b := p * PGSIZE + HEADER;
      InPage(p, HEADER);
    }

    method MallocSmall(size: nat, d: nat) returns (b: nat)
      requires Valid() && d < DESC_CNT && IsDescFor(d, size)
      modifies this
      ensures Valid() && (b == NULL <==> NoRoom(old(S()), d, size))
      ensures b == NULL ==> S() == old(S())
      ensures b != NULL ==> Allocated(old(S()), S(), b, size) && Takes(old(S()), S(), b, d, size)
    {
      DescFits(d, size);
      ghost var full := 0;
      if free_lists[d] == [] {
        var p := PallocGetPage();
        if p == NULL { return NULL; }
        NewArenaKeeps(old(S()), d, p);
        NewArena(d, p);
        full := p;
        assert S() == WithArena(old(S()), d, p);
        FirstOfNew(d, p);
        assert Run(p, 1) == {p} && free_lists[d] == BlocksOf(p, d, BlocksPerArena(d));
      }
      TakeKeeps(S(), d, full);
      hide OkBut, Ok, PagesOk, NoPageLost;
      ghost var k := S();
      b := free_lists[d][0];
      free_lists := free_lists[d := free_lists[d][1..]];
      var a := arenas[PageOf(b)];
      arenas := arenas[PageOf(b) := Small(a.d, if a.free_cnt > 0 then a.free_cnt - 1 else 0)];
      assert S() == Taken(k, d);
    }

    /** `memset` of a block that is about to be freed. */
    method Clear(b: nat, n: nat)
      requires b + n <= bytes.Length
      modifies bytes
      ensures forall x :: 0 <= x < bytes.Length && !(b <= x < b + n) ==> bytes[x] == old(bytes[x])
      ensures forall x :: b <= x < b + n ==> bytes[x] == CLEARED
    {
      var i := 0;
      while i < n
        invariant i <= n
        invariant forall x :: 0 <= x < bytes.Length && !(b <= x < b + n) ==> bytes[x] == old(bytes[x])
        invariant forall x :: b <= x < b + i ==> bytes[x] == CLEARED
      {
        bytes[b + i] := CLEARED;
        i := i + 1;
      }
    }

    /** `memcpy` between blocks that do not overlap. */
    method Copy(dst: nat, src: nat, n: nat)
      requires dst + n <= bytes.Length && src + n <= bytes.Length && (dst + n <= src || src + n <= dst)
      modifies bytes
      ensures forall x :: 0 <= x < bytes.Length && !(dst <= x < dst + n) ==> bytes[x] == old(bytes[x])
      ensures bytes[dst..dst + n] == old(bytes[src..src + n])
    {
      var i := 0;
      while i < n
        invariant i <= n
        invariant forall x :: 0 <= x < bytes.Length && !(dst <= x < dst + i) ==> bytes[x] == old(bytes[x])
        invariant bytes[dst..dst + i] == old(bytes[src..src + n])[..i]
      {
        assert bytes[src + i] == old(bytes[src..src + n])[i];
        bytes[dst + i] := bytes[src + i];
        i := i + 1;
      }
    }

    /** `free`: the block is no longer live, every other live block stays with its bytes, and an arena that
        has become wholly free goes back to the page allocator. */
    method Free(b: nat)
      requires Valid() && (b != NULL ==> Live(S(), b))
      modifies this, bytes
      ensures Valid() && SameSizes(old(S()), S())
      ensures forall c :: Live(S(), c) <==> Live(old(S()), c) && c != b
      ensures b == NULL ==> S() == old(S())
      ensures b != NULL ==> pages == old(pages) + GivenBack(old(S()), b)
      ensures b != NULL && !OnlyOne(old(S()), b) ==> Fronted(old(S()), free_lists, b)
      ensures forall x :: 0 <= x < bytes.Length && !(b <= x < b + old(SizeOf(S(), b))) ==> bytes[x] == old(bytes[x])
      ensures b != NULL && old(arenas[PageOf(b)].Small?) ==> forall x :: b <= x < b + old(SizeOf(S(), b)) && x < bytes.Length ==> bytes[x] == CLEARED
    {
      if b == NULL {
        NullIsNotLive(S());
        return;
      }
      LiveInSpan(S(), b);
      match arenas[PageOf(b)] {
        case Small(d, _) =>
          LiveFits(S(), b);
          Clear(b, BlockSize(d));
          FreeSmall(b, d);
        case Big(page_cnt) =>
          BigFreeKeeps(S(), b);
          assert OnlyOne(S(), b);
          hide Ok;
          arenas := arenas - {PageOf(b)};
          pages := pages + Run(PageOf(b), page_cnt);
          assert S() == WithoutBig(old(S()), PageOf(b));
      }
    }

    method FreeSmall(b: nat, d: nat)
      requires Valid() && LiveSmall(S(), b) && arenas[PageOf(b)].d == d
      modifies this
      ensures Valid() && SameSizes(old(S()), S())
      ensures forall c :: Live(S(), c) <==> Live(old(S()), c) && c != b
      ensures pages == old(pages) + GivenBack(old(S()), b)
      ensures !OnlyOne(old(S()), b) ==> d < |old(free_lists)| && free_lists == old(free_lists)[d := [b] + old(free_lists[d])]
    {
      ghost var k := S();
      var p := PageOf(b);
      GiveKeeps(k, b);
      LastComesBack(k, b);
      assert Run(p, 1) == {p};
      hide Ok, OkBut, LiveSmall, Live, OnlyOne;
      free_lists := free_lists[d := [b] + free_lists[d]];
      var a := arenas[p];
      arenas := arenas[p := Small(a.d, a.free_cnt + 1)];
      ghost var k1 := S();
      assert k1 == Given(k, b);
      if a.free_cnt + 1 >= BlocksPerArena(d) {
        assert a.free_cnt + 1 == BlocksPerArena(d);
        DropKeeps(k1, p);
        ListFacts(k1, p, d);
        RemoveBlocks(p, d);
        arenas := arenas - {p};
        pages := pages + {p};
        assert S() == Dropped(k1, p);
        SizesTwice(k, k1, S());
      }
    }

    /** Every block of the arena leaves the free list. */
    method RemoveBlocks(p: nat, d: nat)
      requires d < DESC_CNT && d < |free_lists| && Distinct(free_lists[d]) && OnlyBlocks(free_lists[d], p, d)
      modifies this`free_lists
      ensures free_lists == old(free_lists)[d := OffPage(old(free_lists)[d], p)]
    {
      ghost var list := free_lists[d];
      AllRemoved(list, p, d);
      var i := 0;
      while i < BlocksPerArena(d)
        invariant i <= BlocksPerArena(d) && free_lists == old(free_lists)[d := OffBlocks(list, p, d, i)]
      {
        RemoveStep(list, p, d, i);
        free_lists := free_lists[d := Without(free_lists[d], BlockAt(p, d, i))];
        i := i + 1;
      }
    }

    /** `realloc`: the new block holds the bytes of the old one as far as both reach; no other live block
        changes; and when there is no room nothing changes at all. */
    method Realloc(old_block: nat, new_size: nat) returns (b: nat)
      requires Valid() && (old_block != NULL ==> Live(S(), old_block))
      modifies this, bytes
      ensures Valid()
      ensures new_size == 0 ==> b == NULL && forall c :: Live(S(), c) <==> Live(old(S()), c) && c != old_block
      ensures new_size > 0 ==> (b == NULL <==> CannotServe(old(S()), new_size))
      ensures new_size > 0 && b == NULL ==> S() == old(S()) && bytes[..] == old(bytes[..])
      ensures b != NULL ==>
                && Fits(SizeOf(S(), b), new_size) && b % 8 == 0 && !Live(old(S()), b)
                && forall c :: Live(S(), c) <==> (Live(old(S()), c) && c != old_block) || c == b
      ensures b != NULL && old_block != NULL ==> Kept(old(bytes[..]), bytes[..], old_block, b, Min(new_size, SizeOf(old(S()), old_block)))
      ensures OthersKept(old(S()), old_block, old(bytes[..]), bytes[..])
      ensures forall c :: Live(old(S()), c) && c != old_block ==> SizeOf(S(), c) == SizeOf(old(S()), c)
    {
      hide CannotServe, Fits, Takes;
      ghost var k := S();
      if new_size == 0 {
        Free(old_block);
        FreeLeaves(k, old_block, old(bytes[..]), bytes[..]);
        return NULL;
      }
      b := Malloc(new_size);
      if old_block == NULL || b == NULL {
        NothingMoves(k, old_block, bytes[..]);
        return;
      }
      ghost var k1 := S();
      LiveFits(k1, old_block);
      LiveFits(k1, b);
      FitsHolds(SizeOf(k1, b), new_size);
      LiveApart(k1, b, old_block);
      assert SizeOf(k1, old_block) == SizeOf(k, old_block);
      hide Ok, Live, SizeOf;
      var old_size := BlockLength(old_block);
      var min_size := Min(new_size, old_size);
      Copy(b, old_block, min_size);
      ghost var copied := bytes[..];
      Free(old_block);
      SizesAfter(k, k1, S(), old_block);
      CopyKept(old(bytes[..]), copied, bytes[..], old_block, b, min_size, old_size);
      OthersLeft(k, k1, old_block, b, new_size, min_size, old(bytes[..]), copied, bytes[..]);
    }

    /** `block_size`. */
    method BlockLength(b: nat) returns (n: nat)
      requires Valid() && Live(S(), b)
      ensures n == SizeOf(S(), b)
    {
      LiveInSpan(S(), b);
      match arenas[PageOf(b)] {
        case Small(d, _) => n := BlockSize(d);
        case Big(page_cnt) => n := PGSIZE * page_cnt - b % PGSIZE;
      }
    }
  }

  /** The block is the first on the free list of its size: it will be the next handed out. */
  ghost predicate Fronted(k: State, lists: seq<seq<nat>>, b: nat) {
    && PageOf(b) in k.arenas && k.arenas[PageOf(b)].Small?
    && var d := k.arenas[PageOf(b)].d; d < |k.lists| && lists == k.lists[d := [b] + k.lists[d]]
  }

  /** The pages that freeing `b` gives back: those of its arena, if no other block of it is live. */
  ghost function GivenBack(k: State, b: nat): set<nat> {
    if PageOf(b) in k.arenas && OnlyOne(k, b) then Run(PageOf(b), Span(k.arenas[PageOf(b)])) else {}
  }

  /** A request for no more pages than a block gave back cannot fail. */
  lemma GivenBackServes(k: State, b: nat, k': State, size: nat)
    requires Ok(k) && Live(k, b) && k'.pages == k.pages + GivenBack(k, b) && OnlyOne(k, b)
    requires 0 < PageCount(size) <= Span(k.arenas[PageOf(b)])
    ensures !CannotServe(k', size)
  {
    var p := PageOf(b);
    RunMembers(p, Span(k.arenas[p]));
    assert p in k'.pages && FreeRun(k'.pages, p, PageCount(size));
    hide Ok, Live, OnlyOne;
  }

  lemma FirstOfNew(d: nat, p: nat)
    requires d < DESC_CNT
    ensures BlocksOf(p, d, BlocksPerArena(d)) != [] && PageOf(BlocksOf(p, d, BlocksPerArena(d))[0]) == p
  {
    SizesDouble(d);
    BlockFacts(p, d, 0);
    assert BlocksOf(p, d, BlocksPerArena(d))[0] == BlockAt(p, d, 0);
  }

  lemma OneDesc(d: nat, size: nat)
    requires IsDescFor(d, size)
    ensures forall e: nat :: IsDescFor(e, size) ==> e == d
  {
  }

  /** A block of at least `size` bytes has joined the live ones, aligned to 8 bytes. */
  ghost predicate Allocated(k: State, k': State, b: nat, size: nat) {
    && b % 8 == 0 && Fits(SizeOf(k', b), size) && SameSizes(k, k') && !Live(k, b)
    && forall c :: Live(k', c) <==> Live(k, c) || c == b
  }

  lemma NullIsNotLive(k: State)
    requires Ok(k)
    ensures !Live(k, NULL)
  {
  }

  lemma LiveFits(k: State, b: nat)
    requires Ok(k) && Live(k, b)
    ensures b + SizeOf(k, b) <= k.limit * PGSIZE && b > 0
  {
    LiveInSpan(k, b);
  }

  lemma SizesAfter(k: State, k1: State, k2: State, b: nat)
    requires SameSizes(k, k1) && SameSizes(k1, k2) && forall c :: Live(k, c) ==> Live(k1, c)
    requires forall c :: Live(k2, c) <==> Live(k1, c) && c != b
    ensures forall c :: Live(k, c) && c != b ==> SizeOf(k2, c) == SizeOf(k, c)
    ensures forall c :: Live(k1, c) && c != b ==> SizeOf(k2, c) == SizeOf(k1, c)
  {
    hide Live, SizeOf;
  }

  lemma SizesTwice(k: State, k1: State, k2: State)
    requires SameSizes(k, k1) && SameSizes(k1, k2) && forall c :: Live(k2, c) ==> Live(k1, c)
    ensures SameSizes(k, k2)
  {
  }

  lemma ListFacts(k: State, p: nat, d: nat)
    requires OkBut(k, p) && d < DESC_CNT
    ensures Distinct(k.lists[d]) && OnlyBlocks(k.lists[d], p, d)
  {
    assert ListOk(k, d);
    assert forall b :: b in k.lists[d] ==> IsBlock(k, b, d);
  }

  /** The first `n` bytes of `dst` are what those of `src` were. */
  ghost predicate Kept(before: seq<int>, after: seq<int>, src: nat, dst: nat, n: nat) {
    src + n <= |before| && dst + n <= |after| && after[dst..dst + n] == before[src..src + n]
  }

  /** Every block that was live, but for `b`, has the bytes it had. */
  ghost predicate OthersKept(k: State, b: nat, before: seq<int>, after: seq<int>) {
    forall c :: Live(k, c) && c != b ==> Kept(before, after, c, c, SizeOf(k, c))
  }

  ghost predicate OnlyWithin(before: seq<int>, after: seq<int>, b: nat, n: nat) {
    |after| == |before| && forall x :: 0 <= x < |before| && !(b <= x < b + n) ==> after[x] == before[x]
  }

  lemma FreeLeaves(k: State, b: nat, before: seq<int>, after: seq<int>)
    requires Ok(k) && (b != NULL ==> Live(k, b)) && |before| == k.limit * PGSIZE && OnlyWithin(before, after, b, SizeOf(k, b))
    ensures OthersKept(k, b, before, after)
  {
    NullSize(k);
    forall c | Live(k, c) && c != b ensures Kept(before, after, c, c, SizeOf(k, c)) {
      LiveFits(k, c);
      if b != NULL { LiveApart(k, b, c); }
    }
  }

  lemma NothingMoves(k: State, b: nat, s: seq<int>)
    requires Ok(k) && |s| == k.limit * PGSIZE
    ensures OthersKept(k, b, s, s) && !Live(k, NULL)
  {
    NullIsNotLive(k);
    forall c | Live(k, c) ensures Kept(s, s, c, c, SizeOf(k, c)) { LiveFits(k, c); }
    hide Ok, Live, SizeOf;
  }

  lemma NullSize(k: State)
    requires Ok(k)
    ensures SizeOf(k, NULL) == 0
  {
  }

  lemma CopyKept(before: seq<int>, copied: seq<int>, after: seq<int>, src: nat, dst: nat, n: nat, old_size: nat)
    requires |before| == |copied| == |after| && dst + n <= |before| && src + n <= |before| && n <= old_size
    requires copied[dst..dst + n] == before[src..src + n] && OnlyWithin(copied, after, src, old_size)
    requires dst + n <= src || src + old_size <= dst
    ensures Kept(before, after, src, dst, n)
  {
    assert after[dst..dst + n] == copied[dst..dst + n];
  }

  lemma OthersLeft(k: State, k1: State, old_block: nat, b: nat, new_size: nat, n: nat, before: seq<int>, copied: seq<int>, after: seq<int>)
    requires Ok(k) && Ok(k1) && Live(k, old_block) && Allocated(k, k1, b, new_size) && n <= new_size && |before| == k.limit * PGSIZE
    requires OnlyWithin(before, copied, b, n) && OnlyWithin(copied, after, old_block, SizeOf(k, old_block))
    ensures OthersKept(k, old_block, before, after)
  {
    forall c | Live(k, c) && c != old_block ensures Kept(before, after, c, c, SizeOf(k, c)) {
      LiveFits(k, c);
      LiveApart(k, old_block, c);
      LiveApart(k1, b, c);
    }
    hide Ok, Live, SizeOf;
  }
}
