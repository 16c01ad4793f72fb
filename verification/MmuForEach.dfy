/** threads/mmu.c: calling a function on every present page table entry. */
module MmuForEach {
  import opened PageTables
  import opened Mmu

  /** One call of the function: the slot of the entry and the virtual address it is for. */
  datatype Visit = Visit(slot: Slot, va: nat)

  /** The calls for the entries from `i` on of table `t`, which stands at level `lvl` below prefix `pre`. */
  function VisitsFrom(m: Memory, t: nat, pre: nat, lvl: nat, i: nat): seq<Visit>
    requires lvl >= 1 && i <= ENTRIES
    decreases lvl, ENTRIES - i
  {
    if i == ENTRIES then [] else VisitsAt(m, t, pre, lvl, i) + VisitsFrom(m, t, pre, lvl, i + 1)
  }

  function VisitsAt(m: Memory, t: nat, pre: nat, lvl: nat, i: nat): seq<Visit>
    requires lvl >= 1 && i < ENTRIES
    decreases lvl, 0
  {
    var e := At(m, t, i);
    if !Present(e) then []
    else if lvl == 1 then [Visit(Slot(t, i), (pre * ENTRIES + i) * PGSIZE)]
    else VisitsFrom(m, Target(e), pre * ENTRIES + i, lvl - 1, 0)
  }

  function AllVisits(m: Memory, pml4: nat): seq<Visit> {
    VisitsFrom(m, pml4, 0, ROOT_LEVEL, 0)
  }

  // ----- what is visited

  /** `v` is for a page below `pre` whose walk from `t` ends in a present entry, the one in the slot of `v`. */
  ghost predicate IsFor(m: Memory, t: nat, pre: nat, lvl: nat, v: Visit) {
    var n := v.va / PGSIZE;
    && v.va == n * PGSIZE && Up(n, lvl) == pre && Present(PteFrom(m, t, n, lvl))
    && At(m, v.slot.table, v.slot.index) == PteFrom(m, t, n, lvl)
  }

  ghost predicate Ascending(s: seq<Visit>) {
    forall i, j :: 0 <= i < j < |s| ==> s[i].va < s[j].va
  }

  lemma IdxOf(n: nat, lvl: nat, pre: nat, i: nat)
    requires lvl >= 1 && i < ENTRIES
    ensures Up(n, lvl - 1) == pre * ENTRIES + i <==> Up(n, lvl) == pre && Idx(n, lvl) == i
  {
    SplitNumber(n, lvl);
    UpStep(n, lvl - 1);
  }

  lemma PageOfVa(n: nat)
    ensures n * PGSIZE / PGSIZE == n
  {
  }

  /** Numbers with the smaller prefix are smaller. */
  lemma {:induction false} UpOrder(a: nat, b: nat, k: nat)
    requires Up(a, k) < Up(b, k)
    ensures a < b
  {
    if k > 0 {
      UpOrder(a / ENTRIES, b / ENTRIES, k - 1);
    }
  }

  lemma {:induction false} VisitsAtAre(m: Memory, t: nat, pre: nat, lvl: nat, i: nat)
    requires lvl >= 1 && i < ENTRIES
    ensures Ascending(VisitsAt(m, t, pre, lvl, i))
    ensures forall v :: v in VisitsAt(m, t, pre, lvl, i) ==> IsFor(m, t, pre, lvl, v) && Idx(v.va / PGSIZE, lvl) == i
    decreases lvl, 0
  {
    var e := At(m, t, i);
    if Present(e) && lvl == 1 {
      var n := pre * ENTRIES + i;
      PageOfVa(n);
      IdxOf(n, 1, pre, i);
    } else if Present(e) {
      VisitsAre(m, Target(e), pre * ENTRIES + i, lvl - 1, 0);
      forall v | v in VisitsAt(m, t, pre, lvl, i) ensures IsFor(m, t, pre, lvl, v) && Idx(v.va / PGSIZE, lvl) == i {
        assert IsFor(m, Target(e), pre * ENTRIES + i, lvl - 1, v);
        IdxOf(v.va / PGSIZE, lvl, pre, i);
      }
    }
  }

  /** The calls come in ascending order of addresses, each for a page that is present, with the entry that
      the walk to this page finds. */
  lemma {:induction false} VisitsAre(m: Memory, t: nat, pre: nat, lvl: nat, i: nat)
    requires lvl >= 1 && i <= ENTRIES
    ensures Ascending(VisitsFrom(m, t, pre, lvl, i))
    ensures forall v :: v in VisitsFrom(m, t, pre, lvl, i) ==> IsFor(m, t, pre, lvl, v) && Idx(v.va / PGSIZE, lvl) >= i
    decreases lvl, ENTRIES - i
  {
    if i < ENTRIES {
      VisitsAtAre(m, t, pre, lvl, i);
      VisitsAre(m, t, pre, lvl, i + 1);
      var a, b := VisitsAt(m, t, pre, lvl, i), VisitsFrom(m, t, pre, lvl, i + 1);
      forall v, w | v in a && w in b ensures v.va < w.va {
        SplitNumber(v.va / PGSIZE, lvl);
        SplitNumber(w.va / PGSIZE, lvl);
        UpOrder(v.va / PGSIZE, w.va / PGSIZE, lvl - 1);
      }
      AscendingJoin(a, b);
    }
  }

  lemma AscendingJoin(a: seq<Visit>, b: seq<Visit>)
    requires Ascending(a) && Ascending(b) && forall v, w :: v in a && w in b ==> v.va < w.va
    ensures Ascending(a + b)
  {
  }

  /** No present page is left out. */
  lemma {:induction false} NoneLeftOut(m: Memory, t: nat, pre: nat, lvl: nat, i: nat, n: nat)
    requires lvl >= 1 && i <= ENTRIES && Up(n, lvl) == pre && Idx(n, lvl) >= i && Present(PteFrom(m, t, n, lvl))
    ensures exists v :: v in VisitsFrom(m, t, pre, lvl, i) && v.va == n * PGSIZE
    decreases lvl, ENTRIES - i
  {
    var k := Idx(n, lvl);
    if i < k {
      NoneLeftOut(m, t, pre, lvl, i + 1, n);
      var v :| v in VisitsFrom(m, t, pre, lvl, i + 1) && v.va == n * PGSIZE;
      assert v in VisitsFrom(m, t, pre, lvl, i);
    } else {
      IdxOf(n, lvl, pre, i);
      if lvl == 1 {
        assert Up(n, 0) == n;
        var v := Visit(Slot(t, i), (pre * ENTRIES + i) * PGSIZE);
        assert v in VisitsAt(m, t, pre, lvl, i);
        assert v in VisitsFrom(m, t, pre, lvl, i) && v.va == n * PGSIZE;
      } else {
        NoneLeftOut(m, Target(At(m, t, i)), pre * ENTRIES + i, lvl - 1, 0, n);
        var v :| v in VisitsFrom(m, Target(At(m, t, i)), pre * ENTRIES + i, lvl - 1, 0) && v.va == n * PGSIZE;
        assert v in VisitsAt(m, t, pre, lvl, i);
        assert v in VisitsFrom(m, t, pre, lvl, i);
      }
    }
  }

  /** The function is called exactly for the pages of the address space that are mapped, once each and in
      order. */
  lemma VisitsAreTheMapping(m: Memory, pml4: nat)
    ensures Ascending(AllVisits(m, pml4))
    ensures forall v :: v in AllVisits(m, pml4) ==>
              v.va % PGSIZE == 0 && IsVpn(v.va / PGSIZE) && At(m, v.slot.table, v.slot.index) == Pte(m, pml4, v.va / PGSIZE)
    ensures forall n: nat :: IsVpn(n) ==>
              (Translation(m, pml4, n).Some? <==> exists v :: v in AllVisits(m, pml4) && v.va == n * PGSIZE)
  {
    VisitsAre(m, pml4, 0, ROOT_LEVEL, 0);
    forall v | v in AllVisits(m, pml4)
      ensures v.va % PGSIZE == 0 && IsVpn(v.va / PGSIZE) && At(m, v.slot.table, v.slot.index) == Pte(m, pml4, v.va / PGSIZE)
    {
      assert IsFor(m, pml4, 0, ROOT_LEVEL, v);
      Aligned(v.va);
    }
    forall n: nat | IsVpn(n)
      ensures Translation(m, pml4, n).Some? <==> exists v :: v in AllVisits(m, pml4) && v.va == n * PGSIZE
    {
      PageOfVa(n);
      if Translation(m, pml4, n).Some? { NoneLeftOut(m, pml4, 0, ROOT_LEVEL, 0, n); }
      forall v | v in AllVisits(m, pml4) && v.va == n * PGSIZE ensures Translation(m, pml4, n).Some? {
        assert IsFor(m, pml4, 0, ROOT_LEVEL, v);
      }
    }
  }

  lemma Aligned(va: nat)
    requires va == va / PGSIZE * PGSIZE
    ensures va % PGSIZE == 0
  {
  }

  // ----- the loops

  /** The calls made when the function says `false` for some: those up to the first of these. */
  function Until(keep: Visit -> bool, s: seq<Visit>): seq<Visit> {
    if s == [] then [] else if keep(s[0]) then [s[0]] + Until(keep, s[1..]) else [s[0]]
  }

  predicate AllKept(keep: Visit -> bool, s: seq<Visit>) {
    forall v :: v in s ==> keep(v)
  }

  lemma {:induction false} UntilConcat(keep: Visit -> bool, a: seq<Visit>, b: seq<Visit>)
    ensures AllKept(keep, a + b) <==> AllKept(keep, a) && AllKept(keep, b)
    ensures Until(keep, a + b) == if AllKept(keep, a) then Until(keep, a) + Until(keep, b) else Until(keep, a)
  {
    if a == [] {
      assert a + b == b;
    } else {
      UntilConcat(keep, a[1..], b);
      assert (a + b)[1..] == a[1..] + b;
      assert a == [a[0]] + a[1..];
      assert AllKept(keep, a) <==> keep(a[0]) && AllKept(keep, a[1..]);
      assert AllKept(keep, a + b) <==> keep(a[0]) && AllKept(keep, a[1..] + b);
    }
  }

  /** The loop has made all calls for the entries before `i`, and none said `false`. */
  ghost predicate Halfway(keep: Visit -> bool, m: Memory, t: nat, pre: nat, lvl: nat, i: nat, visited: seq<Visit>)
    requires lvl >= 1 && i <= ENTRIES
  {
    var all, rest := VisitsFrom(m, t, pre, lvl, 0), VisitsFrom(m, t, pre, lvl, i);
    visited + Until(keep, rest) == Until(keep, all) && (AllKept(keep, rest) <==> AllKept(keep, all))
  }

  lemma Begin(keep: Visit -> bool, m: Memory, t: nat, pre: nat, lvl: nat)
    requires lvl >= 1
    ensures Halfway(keep, m, t, pre, lvl, 0, [])
  {
  }

  lemma UntilSplits(keep: Visit -> bool, here: seq<Visit>, rest: seq<Visit>, visited: seq<Visit>, ok: bool, more: seq<Visit>, all: seq<Visit>)
    requires visited + Until(keep, here + rest) == Until(keep, all) && (AllKept(keep, here + rest) <==> AllKept(keep, all))
    requires (ok <==> AllKept(keep, here)) && more == Until(keep, here)
    ensures ok ==> visited + more + Until(keep, rest) == Until(keep, all) && (AllKept(keep, rest) <==> AllKept(keep, all))
    ensures !ok ==> visited + more == Until(keep, all) && !AllKept(keep, all)
  {
    hide Until, AllKept;
    UntilConcat(keep, here, rest);
    assert visited + (more + Until(keep, rest)) == visited + more + Until(keep, rest);
  }

  lemma Onward(keep: Visit -> bool, m: Memory, t: nat, pre: nat, lvl: nat, i: nat, visited: seq<Visit>, ok: bool, more: seq<Visit>)
    requires lvl >= 1 && i < ENTRIES && Halfway(keep, m, t, pre, lvl, i, visited)
    requires var here := VisitsAt(m, t, pre, lvl, i); (ok <==> AllKept(keep, here)) && more == Until(keep, here)
    ensures ok ==> Halfway(keep, m, t, pre, lvl, i + 1, visited + more)
    ensures !ok ==> Over(keep, m, t, pre, lvl, false, visited + more)
  {
    var here, rest := VisitsAt(m, t, pre, lvl, i), VisitsFrom(m, t, pre, lvl, i + 1);
    assert VisitsFrom(m, t, pre, lvl, i) == here + rest;
    hide VisitsAt, VisitsFrom, Until, AllKept;
    UntilSplits(keep, here, rest, visited, ok, more, VisitsFrom(m, t, pre, lvl, 0));
  }

  /** The calls for a table are over, and `ok` is the answer. */
  ghost predicate Over(keep: Visit -> bool, m: Memory, t: nat, pre: nat, lvl: nat, ok: bool, visited: seq<Visit>)
    requires lvl >= 1
  {
    var all := VisitsFrom(m, t, pre, lvl, 0);
    (ok <==> AllKept(keep, all)) && visited == Until(keep, all)
  }

  lemma End(keep: Visit -> bool, m: Memory, t: nat, pre: nat, lvl: nat, visited: seq<Visit>)
    requires lvl >= 1 && Halfway(keep, m, t, pre, lvl, ENTRIES, visited)
    ensures Over(keep, m, t, pre, lvl, true, visited)
  {
    assert Until(keep, []) == [];
    assert visited + [] == visited;
  }

  ghost predicate StandsAt(m: Memory, place: map<nat, Place>, pml4: nat, t: nat, lvl: nat, pre: nat) {
    TreeOk(m, place, pml4) && t in place && place[t] == Place(lvl, pre)
  }

  lemma TableThere(m: Memory, place: map<nat, Place>, pml4: nat, t: nat, lvl: nat, pre: nat)
    requires StandsAt(m, place, pml4, t, lvl, pre) && lvl >= 1
    ensures t in m && |m[t]| == ENTRIES
  {
    assert PageOk(m, place, t);
  }

  lemma BranchThere(m: Memory, place: map<nat, Place>, pml4: nat, t: nat, lvl: nat, pre: nat, i: nat)
    requires StandsAt(m, place, pml4, t, lvl, pre) && lvl >= 2 && i < ENTRIES && Present(At(m, t, i))
    ensures StandsAt(m, place, pml4, Target(At(m, t, i)), lvl - 1, pre * ENTRIES + i)
  {
    assert EntryOk(m, place, t, i);
  }

  /** What entry `i` contributes: nothing, one call, or the calls of the table it leads to. */
  lemma AtEntry(keep: Visit -> bool, m: Memory, t: nat, pre: nat, lvl: nat, i: nat)
    requires lvl >= 1 && i < ENTRIES
    ensures var here := VisitsAt(m, t, pre, lvl, i); var e := At(m, t, i);
      && (!Present(e) ==> here == [] && Until(keep, here) == [] && AllKept(keep, here))
      && (Present(e) && lvl == 1 ==> var v := Visit(Slot(t, i), (pre * ENTRIES + i) * PGSIZE);
            Until(keep, here) == [v] && (AllKept(keep, here) <==> keep(v)))
      && (Present(e) && lvl > 1 ==> here == VisitsFrom(m, Target(e), pre * ENTRIES + i, lvl - 1, 0))
  {
  }

  lemma AddressBits(pml4_index: nat, pdp_index: nat, pdx_index: nat, i: nat)
    ensures pml4_index * 0x8000000000 + pdp_index * 0x40000000 + pdx_index * 0x200000 + i * 0x1000
              == (((pml4_index * ENTRIES + pdp_index) * ENTRIES + pdx_index) * ENTRIES + i) * PGSIZE
  {
  }

  /** `pt_for_each`. */
  method PtForEach(c: Machine, pt: nat, keep: Visit -> bool, pml4_index: nat, pdp_index: nat, pdx_index: nat,
                   ghost place: map<nat, Place>, ghost pml4: nat)
    returns (ok: bool, visited: seq<Visit>)
    requires StandsAt(c.mem, place, pml4, pt, 1, (pml4_index * ENTRIES + pdp_index) * ENTRIES + pdx_index)
    ensures Over(keep, c.mem, pt, (pml4_index * ENTRIES + pdp_index) * ENTRIES + pdx_index, 1, ok, visited)
  {
    hide StandsAt, Halfway, Over, Until, AllKept, VisitsAt, TreeOk;
    ghost var pre := (pml4_index * ENTRIES + pdp_index) * ENTRIES + pdx_index;
    TableThere(c.mem, place, pml4, pt, 1, pre);
    visited := [];
    Begin(keep, c.mem, pt, pre, 1);
    for i := 0 to ENTRIES
      invariant Halfway(keep, c.mem, pt, pre, 1, i, visited)
    {
      AtEntry(keep, c.mem, pt, pre, 1, i);
      var pte := c.mem[pt][i];
      if Present(pte) {
        AddressBits(pml4_index, pdp_index, pdx_index, i);
        var va := pml4_index * 0x8000000000 + pdp_index * 0x40000000 + pdx_index * 0x200000 + i * 0x1000;
        var v := Visit(Slot(pt, i), va);
        Onward(keep, c.mem, pt, pre, 1, i, visited, keep(v), [v]);
        visited := visited + [v];
        if !keep(v) { return false, visited; }
      } else {
        Onward(keep, c.mem, pt, pre, 1, i, visited, true, []);
        assert visited + [] == visited;
      }
    }
    End(keep, c.mem, pt, pre, 1, visited);
    ok := true;
  }

  /** `pgdir_for_each`. */
  method PgdirForEach(c: Machine, pdp: nat, keep: Visit -> bool, pml4_index: nat, pdp_index: nat,
                      ghost place: map<nat, Place>, ghost pml4: nat)
    returns (ok: bool, visited: seq<Visit>)
    requires StandsAt(c.mem, place, pml4, pdp, 2, pml4_index * ENTRIES + pdp_index)
    ensures Over(keep, c.mem, pdp, pml4_index * ENTRIES + pdp_index, 2, ok, visited)
  {
    hide StandsAt, Halfway, Over, Until, AllKept, VisitsAt, VisitsFrom, TreeOk;
    ghost var pre := pml4_index * ENTRIES + pdp_index;
    TableThere(c.mem, place, pml4, pdp, 2, pre);
    visited := [];
    Begin(keep, c.mem, pdp, pre, 2);
    for i := 0 to ENTRIES
      invariant Halfway(keep, c.mem, pdp, pre, 2, i, visited)
    {
      AtEntry(keep, c.mem, pdp, pre, 2, i);
      var more := [];
      ok := true;
      if Present(c.mem[pdp][i]) {
        BranchThere(c.mem, place, pml4, pdp, 2, pre, i);
        ok, more := PtForEach(c, Target(c.mem[pdp][i]), keep, pml4_index, pdp_index, i, place, pml4);
        OverIs(keep, c.mem, Target(c.mem[pdp][i]), pre * ENTRIES + i, 1, ok, more);
      }
      Onward(keep, c.mem, pdp, pre, 2, i, visited, ok, more);
      visited := visited + more;
      if !ok { return; }
    }
    End(keep, c.mem, pdp, pre, 2, visited);
    ok := true;
  }

  lemma OverIs(keep: Visit -> bool, m: Memory, t: nat, pre: nat, lvl: nat, ok: bool, visited: seq<Visit>)
    requires lvl >= 1 && Over(keep, m, t, pre, lvl, ok, visited)
    ensures var all := VisitsFrom(m, t, pre, lvl, 0); (ok <==> AllKept(keep, all)) && visited == Until(keep, all)
  {
  }

  /** `pdp_for_each`. */
  method PdpForEach(c: Machine, pdp: nat, keep: Visit -> bool, pml4_index: nat, ghost place: map<nat, Place>, ghost pml4: nat)
    returns (ok: bool, visited: seq<Visit>)
    requires StandsAt(c.mem, place, pml4, pdp, 3, pml4_index)
    ensures Over(keep, c.mem, pdp, pml4_index, 3, ok, visited)
  {
    hide StandsAt, Halfway, Over, Until, AllKept, VisitsAt, VisitsFrom, TreeOk;
    TableThere(c.mem, place, pml4, pdp, 3, pml4_index);
    visited := [];
    Begin(keep, c.mem, pdp, pml4_index, 3);
    for i := 0 to ENTRIES
      invariant Halfway(keep, c.mem, pdp, pml4_index, 3, i, visited)
    {
      AtEntry(keep, c.mem, pdp, pml4_index, 3, i);
      var more := [];
      ok := true;
      if Present(c.mem[pdp][i]) {
        BranchThere(c.mem, place, pml4, pdp, 3, pml4_index, i);
        ok, more := PgdirForEach(c, Target(c.mem[pdp][i]), keep, pml4_index, i, place, pml4);
        OverIs(keep, c.mem, Target(c.mem[pdp][i]), pml4_index * ENTRIES + i, 2, ok, more);
      }
      Onward(keep, c.mem, pdp, pml4_index, 3, i, visited, ok, more);
      visited := visited + more;
      if !ok { return; }
    }
    End(keep, c.mem, pdp, pml4_index, 3, visited);
    ok := true;
  }

  /** `pml4_for_each` calls the function for the mapped pages in order, until it says `false`. */
  method Pml4ForEach(c: Machine, pml4: nat, keep: Visit -> bool, ghost place: map<nat, Place>)
    returns (ok: bool, visited: seq<Visit>)
    requires c.Ready(place, pml4)
    ensures ok <==> AllKept(keep, AllVisits(c.mem, pml4))
    ensures visited == Until(keep, AllVisits(c.mem, pml4))
  {
    hide StandsAt, Halfway, Over, Until, AllKept, VisitsAt, VisitsFrom, TreeOk;
    RootStands(c.mem, place, pml4);
    TableThere(c.mem, place, pml4, pml4, ROOT_LEVEL, 0);
    visited := [];
    Begin(keep, c.mem, pml4, 0, ROOT_LEVEL);
    for i := 0 to ENTRIES
      invariant Halfway(keep, c.mem, pml4, 0, ROOT_LEVEL, i, visited)
    {
      AtEntry(keep, c.mem, pml4, 0, ROOT_LEVEL, i);
      var more := [];
      ok := true;
      if Present(c.mem[pml4][i]) {
        BranchThere(c.mem, place, pml4, pml4, ROOT_LEVEL, 0, i);
        ok, more := PdpForEach(c, Target(c.mem[pml4][i]), keep, i, place, pml4);
        OverIs(keep, c.mem, Target(c.mem[pml4][i]), i, 3, ok, more);
      }
      Onward(keep, c.mem, pml4, 0, ROOT_LEVEL, i, visited, ok, more);
      visited := visited + more;
      if !ok {
        OverIs(keep, c.mem, pml4, 0, ROOT_LEVEL, false, visited);
        return;
      }
    }
    End(keep, c.mem, pml4, 0, ROOT_LEVEL, visited);
    OverIs(keep, c.mem, pml4, 0, ROOT_LEVEL, true, visited);
    ok := true;
  }

  lemma RootStands(m: Memory, place: map<nat, Place>, pml4: nat)
    requires TreeOk(m, place, pml4)
    ensures StandsAt(m, place, pml4, pml4, ROOT_LEVEL, 0)
  {
  }
}
