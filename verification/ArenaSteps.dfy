/** The steps of malloc and free on arenas and free lists, each with the proof that it keeps the counts
    exact and changes the set of live blocks as it should. */
module ArenaSteps {
  import opened ArenaState

  /** The first `n` blocks of an arena, in order. */
  function BlocksOf(p: nat, d: nat, n: nat): seq<nat> {
    seq(n, i requires i >= 0 => BlockAt(p, d, i))
  }

  lemma BlocksOfFacts(p: nat, d: nat)
    requires d < DESC_CNT
    ensures var s := BlocksOf(p, d, BlocksPerArena(d));
            && Distinct(s) && FreeBlocks(s, p, d) == Indices(BlocksPerArena(d))
            && (forall b :: b in s ==> PageOf(b) == p && IndexOf(b, d) < BlocksPerArena(d) && b == BlockAt(p, d, IndexOf(b, d)))
  {
    var n := BlocksPerArena(d);
    var s := BlocksOf(p, d, n);
    RangeSize(n);
    forall i: nat | i < n ensures PageOf(s[i]) == p && IndexOf(s[i], d) == i && s[i] == BlockAt(p, d, i) && s[i] in s {
      BlockFacts(p, d, i);
    }
    hide BlockAt, PageOf, IndexOf, BlocksPerArena;
    forall i, j | 0 <= i < j < |s| ensures s[i] != s[j] {
      assert IndexOf(s[i], d) == i && IndexOf(s[j], d) == j;
    }
  }

  /** Blocks that stay live keep their size. */
  ghost predicate SameSizes(k: State, k': State) {
    forall c :: Live(k, c) && Live(k', c) ==> SizeOf(k', c) == SizeOf(k, c)
  }

  /** No page gets lost in a step that leaves every page free or with an arena. */
  lemma NoneLost(k: State, k': State)
    requires NoPageLost(k) && k'.limit == k.limit
    requires forall x :: x in k.pages ==> x in k'.pages || Owned(k', x)
    requires forall p, x :: p in k.arenas && InSpan(k, p, x) ==> x in k'.pages || Owned(k', x)
    ensures NoPageLost(k')
  {
  }

  // ----- a new arena of small blocks

  ghost function WithArena(k: State, d: nat, p: nat): State
    requires d < |k.lists|
  {
    k.(arenas := k.arenas[p := Small(d, BlocksPerArena(d))], lists := k.lists[d := BlocksOf(p, d, BlocksPerArena(d))], pages := k.pages - {p})
  }

  lemma NewArenaKeeps(k: State, d: nat, p: nat)
    requires Ok(k) && d < DESC_CNT && k.lists[d] == [] && p in k.pages
    ensures p !in k.arenas && OkBut(WithArena(k, d, p), p)
    ensures forall b :: Live(WithArena(k, d, p), b) <==> Live(k, b)
    ensures SameSizes(k, WithArena(k, d, p))
  {
    var k' := WithArena(k, d, p);
    BlocksOfFacts(p, d);
    RangeSize(BlocksPerArena(d));
    forall q | q in k.arenas ensures q != p {
      assert ArenaOk(k, q, 0);
      assert InSpan(k, q, q);
    }
    NewArenaPages(k, d, p);
    NewArenaLists(k, d, p);
    NewArenaLive(k, d, p);
    forall q | q in k'.arenas ensures ArenaOk(k', q, p) {
      if q != p {
        assert ArenaOk(k, q, 0);
        if k.arenas[q].Small? && k.arenas[q].d == d { OtherPage(k'.lists[d], p, q, d); }
      }
    }
    hide PagesOk, NoPageLost, ListOk, Live;
  }

  lemma OtherPage(list: seq<nat>, p: nat, q: nat, d: nat)
    requires d < DESC_CNT && p != q && forall b :: b in list ==> PageOf(b) == p
    ensures FreeBlocks(list, q, d) == {}
  {
    forall i: nat | i < BlocksPerArena(d) ensures BlockAt(q, d, i) !in list { BlockFacts(q, d, i); }
  }

  lemma NewArenaPages(k: State, d: nat, p: nat)
    requires PagesOk(k) && d < |k.lists| && p in k.pages && p !in k.arenas
    ensures PagesOk(WithArena(k, d, p)) && (NoPageLost(k) ==> NoPageLost(WithArena(k, d, p)))
  {
    var k' := WithArena(k, d, p);
    assert forall x: nat :: InSpan(k', p, x) <==> x == p;
    assert forall q: nat, x: nat :: q in k.arenas ==> (InSpan(k', q, x) <==> InSpan(k, q, x));
    if NoPageLost(k) { NoneLost(k, k'); }
  }

  lemma NewArenaLists(k: State, d: nat, p: nat)
    requires |k.lists| == DESC_CNT && d < DESC_CNT && k.lists[d] == [] && p !in k.arenas
    requires forall e :: 0 <= e < DESC_CNT ==> ListOk(k, e)
    ensures forall e :: 0 <= e < DESC_CNT ==> ListOk(WithArena(k, d, p), e)
  {
    var k' := WithArena(k, d, p);
    BlocksOfFacts(p, d);
    hide BlockAt, PageOf, IndexOf, BlocksPerArena, BlocksOf;
    forall e | 0 <= e < DESC_CNT ensures ListOk(k', e) {
      assert ListOk(k, e);
      forall b | b in k'.lists[e] ensures IsBlock(k', b, e) {
        assert e != d ==> IsBlock(k, b, e);
      }
    }
  }

  lemma NewArenaLive(k: State, d: nat, p: nat)
    requires |k.lists| == DESC_CNT && d < DESC_CNT && p !in k.arenas && k.lists[d] == []
    ensures forall b :: Live(WithArena(k, d, p), b) <==> Live(k, b)
  {
    var k' := WithArena(k, d, p);
    BlocksOfFacts(p, d);
    var s := BlocksOf(p, d, BlocksPerArena(d));
    forall b ensures Live(k', b) <==> Live(k, b) {
      if PageOf(b) == p && IsBlock(k', b, d) {
        assert s[IndexOf(b, d)] == b;
        assert b in s;
      }
    }
  }

  // ----- taking the first free block

  ghost function Taken(k: State, d: nat): State
    requires d < |k.lists| && k.lists[d] != [] && PageOf(k.lists[d][0]) in k.arenas && k.arenas[PageOf(k.lists[d][0])].Small?
  {
    var b := k.lists[d][0];
    var a := k.arenas[PageOf(b)];
    k.(lists := k.lists[d := k.lists[d][1..]], arenas := k.arenas[PageOf(b) := Small(a.d, if a.free_cnt > 0 then a.free_cnt - 1 else 0)])
  }

  lemma FreeBlocksTail(list: seq<nat>, p: nat, d: nat)
    requires d < DESC_CNT && list != [] && Distinct(list)
    ensures var b := list[0];
            FreeBlocks(list[1..], p, d) == if PageOf(b) == p && IndexOf(b, d) < BlocksPerArena(d) && b == BlockAt(p, d, IndexOf(b, d))
                                           then FreeBlocks(list, p, d) - {IndexOf(b, d)} else FreeBlocks(list, p, d)
    ensures var b := list[0]; PageOf(b) == p && IndexOf(b, d) < BlocksPerArena(d) && b == BlockAt(p, d, IndexOf(b, d)) ==>
              IndexOf(b, d) in FreeBlocks(list, p, d)
  {
    var b := list[0];
    assert list == [b] + list[1..];
    forall i: nat | i < BlocksPerArena(d) && BlockAt(p, d, i) == b ensures PageOf(b) == p && IndexOf(b, d) == i { BlockFacts(p, d, i); }
    hide BlockAt, PageOf, IndexOf, BlocksPerArena;
  }

  lemma TakeKeeps(k: State, d: nat, full: nat)
    requires OkBut(k, full) && d < DESC_CNT && k.lists[d] != [] && (full != 0 ==> full == PageOf(k.lists[d][0]))
    ensures var b := k.lists[d][0];
            && IsBlock(k, b, d) && b > 0 && b % 8 == 0 && Ok(Taken(k, d)) && !Live(k, b) && SizeOf(Taken(k, d), b) == BlockSize(d)
            && SameSizes(k, Taken(k, d))
            && forall c :: Live(Taken(k, d), c) <==> Live(k, c) || c == b
  {
    var b := k.lists[d][0];
    var p := PageOf(b);
    assert ListOk(k, d) && b in k.lists[d] && ArenaOk(k, p, full);
    BlockFacts(p, d, IndexOf(b, d));
    TakeArenas(k, d, full);
    TakeLists(k, d, full);
    TakeLive(k, d);
    TakePages(k, d);
    hide PagesOk, NoPageLost, ListOk, ArenaOk, Live;
  }

  lemma TakePages(k: State, d: nat)
    requires PagesOk(k) && d < |k.lists| && k.lists[d] != [] && PageOf(k.lists[d][0]) in k.arenas && k.arenas[PageOf(k.lists[d][0])].Small?
    ensures PagesOk(Taken(k, d)) && (NoPageLost(k) ==> NoPageLost(Taken(k, d)))
  {
    var k' := Taken(k, d);
    assert forall p :: p in k.arenas ==> Span(k'.arenas[p]) == Span(k.arenas[p]);
    assert forall p, x :: p in k.arenas ==> (InSpan(k', p, x) <==> InSpan(k, p, x));
    if NoPageLost(k) { NoneLost(k, k'); }
  }

  lemma TakeArenas(k: State, d: nat, full: nat)
    requires OkBut(k, full) && d < DESC_CNT && k.lists[d] != [] && IsBlock(k, k.lists[d][0], d) && (full != 0 ==> full == PageOf(k.lists[d][0]))
    ensures forall p :: p in k.arenas ==> ArenaOk(Taken(k, d), p, 0)
  {
    var k', b := Taken(k, d), k.lists[d][0];
    assert ListOk(k, d);
    forall p | p in k.arenas ensures ArenaOk(k', p, 0) {
      assert ArenaOk(k, p, full);
      FreeBlocksTail(k.lists[d], p, d);
      if p == PageOf(b) { FullAtMost(k.lists[d], p, d); }
    }
  }

  lemma TakeLists(k: State, d: nat, full: nat)
    requires OkBut(k, full) && d < DESC_CNT && k.lists[d] != [] && IsBlock(k, k.lists[d][0], d)
    ensures forall e :: 0 <= e < DESC_CNT ==> ListOk(Taken(k, d), e)
  {
    var k' := Taken(k, d);
    forall e | 0 <= e < DESC_CNT ensures ListOk(k', e) {
      assert ListOk(k, e);
      assert e == d ==> k.lists[d] == [k.lists[d][0]] + k'.lists[d];
      forall b | b in k'.lists[e] ensures IsBlock(k', b, e) { assert IsBlock(k, b, e); }
    }
  }

  lemma TakeLive(k: State, d: nat)
    requires |k.lists| == DESC_CNT && d < DESC_CNT && k.lists[d] != [] && IsBlock(k, k.lists[d][0], d) && Distinct(k.lists[d])
    ensures !Live(k, k.lists[d][0]) && forall c :: Live(Taken(k, d), c) <==> Live(k, c) || c == k.lists[d][0]
  {
    var k', b := Taken(k, d), k.lists[d][0];
    assert k.lists[d] == [b] + k'.lists[d];
    assert forall c, e :: IsBlock(k', c, e) <==> IsBlock(k, c, e);
  }

  // ----- putting a block back at the front of its list

  ghost function Given(k: State, b: nat): State
    requires PageOf(b) in k.arenas && k.arenas[PageOf(b)].Small? && k.arenas[PageOf(b)].d < |k.lists|
  {
    var a := k.arenas[PageOf(b)];
    k.(lists := k.lists[a.d := [b] + k.lists[a.d]], arenas := k.arenas[PageOf(b) := Small(a.d, a.free_cnt + 1)])
  }

  ghost predicate LiveSmall(k: State, b: nat) {
    Live(k, b) && k.arenas[PageOf(b)].Small? && k.arenas[PageOf(b)].d < DESC_CNT
  }

  lemma FreeBlocksMore(list: seq<nat>, b: nat, p: nat, d: nat)
    requires d < DESC_CNT && IndexOf(b, d) < BlocksPerArena(d) && b == BlockAt(PageOf(b), d, IndexOf(b, d)) && b !in list
    ensures FreeBlocks([b] + list, p, d) == FreeBlocks(list, p, d) + (if PageOf(b) == p then {IndexOf(b, d)} else {})
    ensures PageOf(b) == p ==> IndexOf(b, d) !in FreeBlocks(list, p, d)
  {
    forall i: nat | i < BlocksPerArena(d) && BlockAt(p, d, i) == b ensures PageOf(b) == p && IndexOf(b, d) == i { BlockFacts(p, d, i); }
    hide BlockAt, PageOf, IndexOf, BlocksPerArena;
  }

  /** The count cannot pass the number of blocks, so the assertion in `free` holds. */
  lemma GiveKeeps(k: State, b: nat)
    requires Ok(k) && LiveSmall(k, b)
    ensures var k', p := Given(k, b), PageOf(b);
            && OkBut(k', p) && k'.arenas[p].free_cnt <= BlocksPerArena(k'.arenas[p].d)
            && (k'.arenas[p].free_cnt < BlocksPerArena(k'.arenas[p].d) ==> Ok(k'))
            && SameSizes(k, k')
            && forall c :: Live(k', c) <==> Live(k, c) && c != b
  {
    var k', p, d := Given(k, b), PageOf(b), k.arenas[PageOf(b)].d;
    assert ListOk(k, d);
    GiveArenas(k, b);
    GiveLists(k, b);
    GiveLive(k, b);
    GivePages(k, b);
    FullAtMost(k'.lists[d], p, d);
    assert ArenaOk(k', p, p);
    forall q | q in k'.arenas && k'.arenas[p].free_cnt < BlocksPerArena(d) ensures ArenaOk(k', q, 0) { assert ArenaOk(k', q, p); }
    hide PagesOk, NoPageLost, ListOk, Live;
  }

  lemma GivePages(k: State, b: nat)
    requires PagesOk(k) && |k.lists| == DESC_CNT && LiveSmall(k, b)
    ensures PagesOk(Given(k, b)) && (NoPageLost(k) ==> NoPageLost(Given(k, b)))
  {
    var k' := Given(k, b);
    assert forall p, x :: p in k.arenas ==> (InSpan(k', p, x) <==> InSpan(k, p, x));
    assert forall p :: p in k.arenas ==> Span(k'.arenas[p]) == Span(k.arenas[p]);
    if NoPageLost(k) { NoneLost(k, k'); }
  }

  lemma GiveArenas(k: State, b: nat)
    requires Ok(k) && LiveSmall(k, b)
    ensures forall p :: p in k.arenas ==> ArenaOk(Given(k, b), p, PageOf(b))
  {
    var k', d := Given(k, b), k.arenas[PageOf(b)].d;
    forall p | p in k.arenas ensures ArenaOk(k', p, PageOf(b)) {
      assert ArenaOk(k, p, 0);
      FreeBlocksMore(k.lists[d], b, p, d);
    }
  }

  lemma GiveLists(k: State, b: nat)
    requires Ok(k) && LiveSmall(k, b)
    ensures forall e :: 0 <= e < DESC_CNT ==> ListOk(Given(k, b), e)
  {
    var k', d := Given(k, b), k.arenas[PageOf(b)].d;
    forall e | 0 <= e < DESC_CNT ensures ListOk(k', e) {
      assert ListOk(k, e);
      assert e == d ==> k'.lists[e][1..] == k.lists[e];
      forall c | c in k'.lists[e] ensures IsBlock(k', c, e) { assert c != b ==> IsBlock(k, c, e); }
    }
  }

  lemma GiveLive(k: State, b: nat)
    requires |k.lists| == DESC_CNT && LiveSmall(k, b)
    ensures forall c :: Live(Given(k, b), c) <==> Live(k, c) && c != b
  {
    var k' := Given(k, b);
    assert forall c, e :: IsBlock(k', c, e) <==> IsBlock(k, c, e);
  }

  /** The count reaches the number of blocks exactly when the last live block of the arena comes back. */
  lemma LastComesBack(k: State, b: nat)
    requires Ok(k) && LiveSmall(k, b)
    ensures var a := k.arenas[PageOf(b)]; OnlyOne(k, b) <==> a.free_cnt + 1 >= BlocksPerArena(a.d)
  {
    var p := PageOf(b);
    var d := k.arenas[p].d;
    GiveKeeps(k, b);
    var k' := Given(k, b);
    assert ArenaOk(k', p, p);
    FullAtMost(k'.lists[d], p, d);
    if |FreeBlocks(k'.lists[d], p, d)| < BlocksPerArena(d) {
      var i: nat :| i < BlocksPerArena(d) && BlockAt(p, d, i) !in k'.lists[d];
      BlockFacts(p, d, i);
      assert Live(k', BlockAt(p, d, i));
    } else {
      forall c | Live(k, c) && PageOf(c) == p ensures c == b {
        assert c in k'.lists[d];
      }
    }
    hide OkBut;
  }

  // ----- giving a wholly free arena back

  function OffPage(s: seq<nat>, p: nat): seq<nat> {
    if s == [] then [] else (if PageOf(s[0]) == p then [] else [s[0]]) + OffPage(s[1..], p)
  }

  lemma {:induction false} OffPageMembers(s: seq<nat>, p: nat)
    requires Distinct(s)
    ensures Distinct(OffPage(s, p)) && forall b :: b in OffPage(s, p) <==> b in s && PageOf(b) != p
  {
    if s != [] {
      assert s == [s[0]] + s[1..] && s[0] !in s[1..];
      OffPageMembers(s[1..], p);
    }
  }

  /** `list_remove`. */
  function Without(s: seq<nat>, b: nat): seq<nat> {
    if s == [] then [] else if s[0] == b then s[1..] else [s[0]] + Without(s[1..], b)
  }

  /** The list without the first `n` blocks of arena `p`. */
  function OffBlocks(s: seq<nat>, p: nat, d: nat, n: nat): seq<nat> {
    if s == [] then []
    else (if PageOf(s[0]) == p && IndexOf(s[0], d) < n then [] else [s[0]]) + OffBlocks(s[1..], p, d, n)
  }

  ghost predicate OnlyBlocks(s: seq<nat>, p: nat, d: nat) {
    forall b :: b in s && PageOf(b) == p ==> IndexOf(b, d) < BlocksPerArena(d) && b == BlockAt(p, d, IndexOf(b, d))
  }

  /** Removing the blocks of an arena one after the other removes everything on its page. */
  lemma {:induction false} RemoveStep(s: seq<nat>, p: nat, d: nat, i: nat)
    requires Distinct(s) && OnlyBlocks(s, p, d) && d < DESC_CNT && i < BlocksPerArena(d)
    ensures Without(OffBlocks(s, p, d, i), BlockAt(p, d, i)) == OffBlocks(s, p, d, i + 1)
  {
    BlockFacts(p, d, i);
    hide BlockAt, PageOf, IndexOf, BlocksPerArena;
    if s != [] {
      assert s == [s[0]] + s[1..] && s[0] !in s[1..];
      var rest, x := s[1..], BlockAt(p, d, i);
      RemoveStep(rest, p, d, i);
      if s[0] == x {
        NotThere(rest, p, d, i);
        assert OffBlocks(s, p, d, i) == [x] + OffBlocks(rest, p, d, i) && OffBlocks(s, p, d, i + 1) == OffBlocks(rest, p, d, i + 1);
      } else if PageOf(s[0]) == p && IndexOf(s[0], d) < i {
        assert OffBlocks(s, p, d, i) == OffBlocks(rest, p, d, i) && OffBlocks(s, p, d, i + 1) == OffBlocks(rest, p, d, i + 1);
      } else {
        assert PageOf(s[0]) == p ==> IndexOf(s[0], d) != i;
        assert OffBlocks(s, p, d, i) == [s[0]] + OffBlocks(rest, p, d, i) && OffBlocks(s, p, d, i + 1) == [s[0]] + OffBlocks(rest, p, d, i + 1);
        assert Without([s[0]] + OffBlocks(rest, p, d, i), x) == [s[0]] + Without(OffBlocks(rest, p, d, i), x);
      }
    }
  }

  lemma {:induction false} NotThere(s: seq<nat>, p: nat, d: nat, i: nat)
    requires OnlyBlocks(s, p, d) && BlockAt(p, d, i) !in s
    ensures OffBlocks(s, p, d, i) == OffBlocks(s, p, d, i + 1)
  {
    hide BlockAt, PageOf, IndexOf, BlocksPerArena;
    if s != [] { NotThere(s[1..], p, d, i); }
  }

  lemma {:induction false} AllRemoved(s: seq<nat>, p: nat, d: nat)
    requires OnlyBlocks(s, p, d)
    ensures OffBlocks(s, p, d, 0) == s && OffBlocks(s, p, d, BlocksPerArena(d)) == OffPage(s, p)
  {
    hide BlockAt, PageOf, IndexOf, BlocksPerArena;
    if s != [] {
      assert s == [s[0]] + s[1..];
      AllRemoved(s[1..], p, d);
    }
  }

  ghost function Dropped(k: State, p: nat): State
    requires p in k.arenas && k.arenas[p].Small? && k.arenas[p].d < |k.lists|
  {
    var d := k.arenas[p].d;
    k.(arenas := k.arenas - {p}, lists := k.lists[d := OffPage(k.lists[d], p)], pages := k.pages + {p})
  }

  /** Once every block of an arena is free, dropping it loses no live block. */
  lemma DropKeeps(k: State, p: nat)
    requires OkBut(k, p) && p in k.arenas && k.arenas[p].Small? && k.arenas[p].d < DESC_CNT && k.arenas[p].free_cnt >= BlocksPerArena(k.arenas[p].d)
    ensures Ok(Dropped(k, p)) && SameSizes(k, Dropped(k, p)) && forall c :: Live(Dropped(k, p), c) <==> Live(k, c)
  {
    var k', d := Dropped(k, p), k.arenas[p].d;
    assert ListOk(k, d) && ArenaOk(k, p, p);
    OffPageMembers(k.lists[d], p);
    FullAtMost(k.lists[d], p, d);
    DropLive(k, p);
    DropPages(k, p);
    DropLists(k, p);
    forall q | q in k'.arenas ensures ArenaOk(k', q, 0) {
      assert ArenaOk(k, q, p);
      SameFreeBlocks(k.lists[d], p, q, d);
    }
    hide PagesOk, NoPageLost, ListOk, Live;
  }

  lemma SameFreeBlocks(list: seq<nat>, p: nat, q: nat, d: nat)
    requires d < DESC_CNT && p != q && Distinct(list)
    ensures FreeBlocks(OffPage(list, p), q, d) == FreeBlocks(list, q, d)
  {
    OffPageMembers(list, p);
    forall i: nat | i < BlocksPerArena(d) ensures PageOf(BlockAt(q, d, i)) == q { BlockFacts(q, d, i); }
    hide BlockAt, PageOf, BlocksPerArena, OffPage;
  }

  lemma DropPages(k: State, p: nat)
    requires PagesOk(k) && p in k.arenas && k.arenas[p].Small? && k.arenas[p].d < |k.lists|
    ensures PagesOk(Dropped(k, p)) && (NoPageLost(k) ==> NoPageLost(Dropped(k, p)))
  {
    var k' := Dropped(k, p);
    assert InSpan(k, p, p);
    assert forall q: nat, x: nat :: q in k'.arenas ==> (InSpan(k', q, x) <==> InSpan(k, q, x));
    if NoPageLost(k) { NoneLost(k, k'); }
  }

  lemma DropLists(k: State, p: nat)
    requires OkBut(k, p) && p in k.arenas && k.arenas[p].Small? && k.arenas[p].d < DESC_CNT
    ensures forall e :: 0 <= e < DESC_CNT ==> ListOk(Dropped(k, p), e)
  {
    var k', d := Dropped(k, p), k.arenas[p].d;
    forall e | 0 <= e < DESC_CNT ensures ListOk(k', e) {
      assert ListOk(k, e);
      if e == d { OffPageMembers(k.lists[d], p); }
      forall c | c in k'.lists[e] ensures IsBlock(k', c, e) { assert IsBlock(k, c, e); }
    }
  }

  lemma DropLive(k: State, p: nat)
    requires |k.lists| == DESC_CNT && p in k.arenas && k.arenas[p].Small? && k.arenas[p].d < DESC_CNT && Distinct(k.lists[k.arenas[p].d])
    requires var d := k.arenas[p].d; forall i: nat :: i < BlocksPerArena(d) ==> BlockAt(p, d, i) in k.lists[d]
    ensures forall c :: Live(Dropped(k, p), c) <==> Live(k, c)
  {
    var k', d := Dropped(k, p), k.arenas[p].d;
    OffPageMembers(k.lists[d], p);
    hide OffPage, BlockAt, IndexOf, BlocksPerArena, PageOf;
    forall c ensures Live(k', c) <==> Live(k, c) {
      assert forall e :: PageOf(c) != p ==> (IsBlock(k', c, e) <==> IsBlock(k, c, e));
    }
  }

  // ----- big blocks

  function Run(p: nat, n: nat): set<nat> {
    if n == 0 then {} else Run(p, n - 1) + {p + n - 1}
  }

  lemma {:induction false} RunMembers(p: nat, n: nat)
    ensures forall x: nat :: x in Run(p, n) <==> p <= x < p + n
  {
    if n > 0 { RunMembers(p, n - 1); }
  }

  ghost function WithBig(k: State, p: nat, n: nat): State {
    k.(arenas := k.arenas[p := Big(n)], pages := k.pages - Run(p, n))
  }

  ghost predicate FreeRun(pages: set<nat>, p: nat, n: nat) {
    forall x :: p <= x < p + n ==> x in pages
  }

  lemma BigKeeps(k: State, p: nat, n: nat)
    requires Ok(k) && n > 0 && FreeRun(k.pages, p, n)
    ensures var k', b := WithBig(k, p, n), p * PGSIZE + HEADER;
            && Ok(k') && SameSizes(k, k') && !Live(k, b) && SizeOf(k', b) == n * PGSIZE - HEADER && b % 8 == 0 && b > 0
            && forall c :: Live(k', c) <==> Live(k, c) || c == b
  {
    var k' := WithBig(k, p, n);
    assert p in k.pages;
    RunMembers(p, n);
    forall q | q in k.arenas ensures q != p {
      assert ArenaOk(k, q, 0);
      assert InSpan(k, q, q);
    }
    BigPages(k, p, n);
    InPage(p, HEADER);
    EighthsOf(p, 0);
    assert forall c, e :: IsBlock(k', c, e) <==> IsBlock(k, c, e);
    forall c ensures Live(k', c) <==> Live(k, c) || c == p * PGSIZE + HEADER { }
    forall d | 0 <= d < DESC_CNT ensures ListOk(k', d) { assert ListOk(k, d); }
    forall q | q in k'.arenas ensures ArenaOk(k', q, 0) { assert q != p ==> ArenaOk(k, q, 0); }
    hide PagesOk, NoPageLost, ListOk, Live;
  }

  lemma BigPages(k: State, p: nat, n: nat)
    requires PagesOk(k) && n > 0 && FreeRun(k.pages, p, n) && p !in k.arenas
    ensures PagesOk(WithBig(k, p, n)) && (NoPageLost(k) ==> NoPageLost(WithBig(k, p, n)))
  {
    var k' := WithBig(k, p, n);
    RunMembers(p, n);
    assert p in k.pages && p + n - 1 in k.pages;
    assert forall x: nat :: InSpan(k', p, x) <==> p <= x < p + n;
    assert forall q: nat, x: nat :: q in k.arenas ==> (InSpan(k', q, x) <==> InSpan(k, q, x));
    if NoPageLost(k) { NoneLost(k, k'); }
  }

  ghost function WithoutBig(k: State, p: nat): State
    requires p in k.arenas
  {
    k.(arenas := k.arenas - {p}, pages := k.pages + Run(p, Span(k.arenas[p])))
  }

  lemma BigFreeKeeps(k: State, b: nat)
    requires Ok(k) && Live(k, b) && k.arenas[PageOf(b)].Big?
    ensures Ok(WithoutBig(k, PageOf(b))) && SameSizes(k, WithoutBig(k, PageOf(b))) && forall c :: Live(WithoutBig(k, PageOf(b)), c) <==> Live(k, c) && c != b
  {
    var p := PageOf(b);
    var k' := WithoutBig(k, p);
    BigFreePages(k, p);
    assert forall c, e :: PageOf(c) != p ==> (IsBlock(k', c, e) <==> IsBlock(k, c, e));
    forall d | 0 <= d < DESC_CNT ensures ListOk(k', d) {
      assert ListOk(k, d);
      forall c | c in k'.lists[d] ensures IsBlock(k', c, d) { assert IsBlock(k, c, d); }
    }
    forall q | q in k'.arenas ensures ArenaOk(k', q, 0) { assert ArenaOk(k, q, 0); }
    hide ListOk, PagesOk, NoPageLost;
  }

  lemma BigFreePages(k: State, p: nat)
    requires PagesOk(k) && NoPageLost(k) && p in k.arenas
    ensures PagesOk(WithoutBig(k, p)) && NoPageLost(WithoutBig(k, p))
  {
    var k' := WithoutBig(k, p);
    RunMembers(p, Span(k.arenas[p]));
    assert forall q: nat, x: nat :: q in k'.arenas ==> (InSpan(k', q, x) <==> InSpan(k, q, x));
    assert forall x: nat :: p <= x < p + Span(k.arenas[p]) <==> InSpan(k, p, x);
    NoneLost(k, k');
  }
}
