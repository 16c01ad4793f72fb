/** threads/mmu.c: walking, changing and destroying four-level page tables in place. */
module Mmu {
  import opened PageTables

  /** The address of a page table entry. */
  datatype Slot = Slot(table: nat, index: nat)

  const NULL: nat := 0

  function PML4(va: nat): nat { va / 0x8000000000 % 512 }
  function PDPE(va: nat): nat { va / 0x40000000 % 512 }
  function PDX(va: nat): nat { va / 0x200000 % 512 }
  function PTX(va: nat): nat { va / 0x1000 % 512 }

  function Vpn(va: nat): nat { va / PGSIZE }

  lemma Indices(va: nat)
    ensures PML4(va) == Idx(Vpn(va), 4) && PDPE(va) == Idx(Vpn(va), 3) && PDX(va) == Idx(Vpn(va), 2) && PTX(va) == Idx(Vpn(va), 1)
  {
    IndexBits(va);
  }

  ghost predicate MemOk(m: Memory, free: set<nat>) {
    forall p :: p in free ==> p !in m && IsPage(p)
  }

  /** The number of tables that a walk to `vpn` from table `t` would have to add. */
  ghost function Missing(m: Memory, t: nat, vpn: nat, lvl: nat): nat
    decreases lvl
  {
    var e := At(m, t, Idx(vpn, lvl));
    if lvl <= 1 then 0
    else if Present(e) then Missing(m, Target(e), vpn, lvl - 1)
    else lvl - 1
  }

  /** Of the allocated pages only the tables on the way to `vpn` may change. */
  ghost predicate OnlyPath(m: Memory, place: map<nat, Place>, m': Memory, vpn: nat) {
    forall p :: p in m ==> p in m' && (m'[p] == m[p] || (p in place && OnPath(place, p, vpn, place[p].lvl)))
  }

  /** What every walk leaves alone: pages off its way, places taken, translations. */
  ghost predicate Extends(m: Memory, free: set<nat>, place: map<nat, Place>, m': Memory, free': set<nat>, place': map<nat, Place>, pml4: nat, vpn: nat) {
    && TreeOk(m', place', pml4) && MemOk(m', free')
    && (forall v :: IsVpn(v) ==> Pte(m', pml4, v) == Pte(m, pml4, v))
    && OnlyPath(m, place, m', vpn)
    && (forall p :: p in place ==> p in place' && place'[p] == place[p])
    && (forall p :: p in place' && p !in place ==> p in free && place'[p].lvl > 0)
    && free' <= free && m'.Keys == m.Keys + (free - free')
  }

  lemma ExtendsAgain(m0: Memory, f0: set<nat>, p0: map<nat, Place>, m1: Memory, f1: set<nat>, p1: map<nat, Place>,
                     m2: Memory, f2: set<nat>, p2: map<nat, Place>, pml4: nat, vpn: nat)
    requires MemOk(m0, f0) && TreeOk(m0, p0, pml4)
    requires Extends(m0, f0, p0, m1, f1, p1, pml4, vpn) && Extends(m1, f1, p1, m2, f2, p2, pml4, vpn)
    ensures Extends(m0, f0, p0, m2, f2, p2, pml4, vpn)
  {
    forall p | p in p0 ensures p in m0 { assert PageOk(m0, p0, p); }
    OnlyPathAgain(m0, f0, p0, m1, f1, p1, m2, f2, p2, pml4, vpn);
    hide TreeOk, MemOk, Pte, IsVpn, OnlyPath;
  }

  lemma OnlyPathAgain(m0: Memory, f0: set<nat>, p0: map<nat, Place>, m1: Memory, f1: set<nat>, p1: map<nat, Place>,
                      m2: Memory, f2: set<nat>, p2: map<nat, Place>, pml4: nat, vpn: nat)
    requires MemOk(m0, f0)
    requires Extends(m0, f0, p0, m1, f1, p1, pml4, vpn) && Extends(m1, f1, p1, m2, f2, p2, pml4, vpn)
    ensures OnlyPath(m0, p0, m2, vpn)
  {
    hide TreeOk, Pte, IsVpn, Up;
    forall p | p in m0 ensures p in m2 && (m2[p] == m0[p] || (p in p0 && OnPath(p0, p, vpn, p0[p].lvl))) {
      PageNotFree(m0, f0, p);
      assert p in p1 ==> p in p0 && p1[p] == p0[p];
    }
  }

  lemma PageNotFree(m: Memory, free: set<nat>, p: nat)
    requires MemOk(m, free) && p in m
    ensures p !in free
  {
  }

  lemma GrowExtends(m: Memory, free: set<nat>, place: map<nat, Place>, pml4: nat, t: nat, i: nat, page: nat, vpn: nat)
    requires TreeOk(m, place, pml4) && MemOk(m, free) && CanGrow(m, place, t, i, page) && page in free && OnPath(place, t, vpn, place[t].lvl)
    ensures Extends(m, free, place, Grown(m, t, i, page), free - {page}, place[page := Below(place[t], i)], pml4, vpn)
  {
    GrowOk(m, place, pml4, t, i, page);
    forall v | IsVpn(v) ensures Pte(Grown(m, t, i, page), pml4, v) == Pte(m, pml4, v) {
      GrowTranslates(m, place, pml4, t, i, page, pml4, v, ROOT_LEVEL);
    }
    hide TreeOk, Pte, IsVpn, Entry;
  }

  /** What a walk from table `t` of level `lvl` promises: without `create`, or when it fails, nothing changes;
      it fails exactly when a table is missing and may not be added or too few pages are free; and otherwise
      it returns the slot of the entry for `vpn`. */
  ghost predicate WalkOk(m: Memory, free: set<nat>, place: map<nat, Place>, m': Memory, free': set<nat>, place': map<nat, Place>,
                         pml4: nat, t: nat, vpn: nat, lvl: nat, create: bool, pte: Option<Slot>) {
    && Extends(m, free, place, m', free', place', pml4, vpn)
    && (pte.None? || !create ==> m' == m && free' == free && place' == place)
    && (pte.Some? <==> Missing(m, t, vpn, lvl) == 0 || (create && |free| >= Missing(m, t, vpn, lvl)))
    && (pte.Some? ==> OnPath(place', pte.value.table, vpn, 1) && pte.value.index == Idx(vpn, 1))
  }

  lemma PathTable(m: Memory, place: map<nat, Place>, pml4: nat, t: nat, vpn: nat, lvl: nat)
    requires TreeOk(m, place, pml4) && OnPath(place, t, vpn, lvl) && lvl >= 1
    ensures IsTable(m, place, t) && IsPage(t) && (lvl >= 2 && !Present(At(m, t, Idx(vpn, lvl))) ==> At(m, t, Idx(vpn, lvl)) == 0)
  {
    assert PageOk(m, place, t) && EntryOk(m, place, t, Idx(vpn, lvl));
  }

  lemma StandsStill(m: Memory, free: set<nat>, place: map<nat, Place>, pml4: nat, vpn: nat)
    requires TreeOk(m, place, pml4) && MemOk(m, free)
    ensures Extends(m, free, place, m, free, place, pml4, vpn)
  {
    hide TreeOk, MemOk;
  }

  lemma Descend(m: Memory, place: map<nat, Place>, pml4: nat, t: nat, vpn: nat, lvl: nat)
    requires TreeOk(m, place, pml4) && OnPath(place, t, vpn, lvl) && lvl >= 2 && Present(At(m, t, Idx(vpn, lvl)))
    ensures OnPath(place, Target(At(m, t, Idx(vpn, lvl))), vpn, lvl - 1)
    ensures Missing(m, t, vpn, lvl) == Missing(m, Target(At(m, t, Idx(vpn, lvl))), vpn, lvl - 1)
  {
    StepDown(m, place, pml4, t, vpn, lvl);
    hide TreeOk;
  }

  /** A table just hung in leads on to `vpn`, and lacks everything below it. */
  lemma AfterHanging(m: Memory, free: set<nat>, place: map<nat, Place>, pml4: nat, t: nat, vpn: nat, lvl: nat, page: nat)
    requires TreeOk(m, place, pml4) && OnPath(place, t, vpn, lvl) && lvl >= 2 && page in free
    requires CanGrow(m, place, t, Idx(vpn, lvl), page)
    ensures var m' := Grown(m, t, Idx(vpn, lvl), page);
            && Target(At(m', t, Idx(vpn, lvl))) == page && Present(At(m', t, Idx(vpn, lvl)))
            && OnPath(place[page := Below(place[t], Idx(vpn, lvl))], page, vpn, lvl - 1)
            && Missing(m, t, vpn, lvl) == lvl - 1 && Missing(m', page, vpn, lvl - 1) == lvl - 2
            && |free - {page}| == |free| - 1
  {
    EntryFacts(page, true);
    SplitNumber(vpn, lvl);
    hide TreeOk, Entry, IsPage, Up;
  }

  // ----- how the walk of one level follows from the walk of the next

  lemma StaysOut(m: Memory, free: set<nat>, place: map<nat, Place>, pml4: nat, t: nat, vpn: nat, lvl: nat)
    requires Extends(m, free, place, m, free, place, pml4, vpn) && lvl >= 2 && !Present(At(m, t, Idx(vpn, lvl)))
    ensures WalkOk(m, free, place, m, free, place, pml4, t, vpn, lvl, false, None)
  {
    hide Extends;
  }

  lemma NoneFree(m: Memory, free: set<nat>, place: map<nat, Place>, pml4: nat, t: nat, vpn: nat, lvl: nat)
    requires Extends(m, free, place, m, free, place, pml4, vpn) && lvl >= 2 && !Present(At(m, t, Idx(vpn, lvl))) && free == {}
    ensures WalkOk(m, free, place, m, free, place, pml4, t, vpn, lvl, true, None)
  {
    hide Extends;
  }

  lemma TooFew(m: Memory, free: set<nat>, place: map<nat, Place>, pml4: nat, t: nat, vpn: nat, lvl: nat)
    requires Extends(m, free, place, m, free, place, pml4, vpn) && |free| < Missing(m, t, vpn, lvl)
    ensures WalkOk(m, free, place, m, free, place, pml4, t, vpn, lvl, true, None)
  {
    hide Extends, Missing;
  }

  lemma Failed(m: Memory, free: set<nat>, place: map<nat, Place>, m': Memory, free': set<nat>, place': map<nat, Place>,
               pml4: nat, t: nat, vpn: nat, lvl: nat)
    requires WalkOk(m, free, place, m', free', place', pml4, t, vpn, lvl, true, None)
    ensures m' == m && free' == free && place' == place && |free| < Missing(m, t, vpn, lvl) && MemOk(m, free)
  {
    hide TreeOk, Missing, Pte;
  }

  /** The walk from `child` completes the walk from `t`, whether `child` was there or has been added. */
  lemma WalkThrough(m0: Memory, f0: set<nat>, p0: map<nat, Place>, m1: Memory, f1: set<nat>, p1: map<nat, Place>,
                    m2: Memory, f2: set<nat>, p2: map<nat, Place>,
                    pml4: nat, t: nat, child: nat, vpn: nat, lvl: nat, create: bool, pte: Option<Slot>)
    requires TreeOk(m0, p0, pml4) && MemOk(m0, f0) && Extends(m0, f0, p0, m1, f1, p1, pml4, vpn)
    requires lvl >= 2 && WalkOk(m1, f1, p1, m2, f2, p2, pml4, child, vpn, lvl - 1, create, pte)
    requires || (m1 == m0 && f1 == f0 && p1 == p0 && Missing(m0, t, vpn, lvl) == Missing(m0, child, vpn, lvl - 1))
             || (create && pte.Some? && |f1| == |f0| - 1 && Missing(m0, t, vpn, lvl) == Missing(m1, child, vpn, lvl - 1) + 1)
    ensures WalkOk(m0, f0, p0, m2, f2, p2, pml4, t, vpn, lvl, create, pte)
  {
    ExtendsAgain(m0, f0, p0, m1, f1, p1, m2, f2, p2, pml4, vpn);
    hide TreeOk, MemOk, Missing, Extends;
  }

  lemma EmptyRoot(m: Memory, pml4: nat)
    requires m == map[pml4 := Zeros()] && IsPage(pml4)
    ensures TreeOk(m, map[pml4 := Place(ROOT_LEVEL, 0)], pml4)
    ensures forall v :: Translation(m, pml4, v) == None
  {
    var place := map[pml4 := Place(ROOT_LEVEL, 0)];
    assert PageOk(m, place, pml4);
    forall i: nat | i < ENTRIES ensures EntryOk(m, place, pml4, i) { assert At(m, pml4, i) == 0; }
    forall v ensures Translation(m, pml4, v) == None { assert At(m, pml4, Idx(v, 4)) == 0; }
  }

  class Machine {
    var mem: Memory
    var free: set<nat>

    ghost predicate Ready(place: map<nat, Place>, pml4: nat)
      reads this
    {
      TreeOk(mem, place, pml4) && MemOk(mem, free)
    }

    /** A pool of free pages, and a base table without entries, as `paging_init` starts from. */
    constructor (base_pml4: nat, pages: set<nat>)
      requires IsPage(base_pml4) && base_pml4 !in pages && forall p :: p in pages ==> IsPage(p)
      ensures Ready(map[base_pml4 := Place(ROOT_LEVEL, 0)], base_pml4) && free == pages
      ensures forall v :: Translation(mem, base_pml4, v) == None
    {
      mem := map[base_pml4 := Zeros()];
      free := pages;
      new;
      EmptyRoot(mem, base_pml4);
    }

    /** `palloc_get_page` with `PAL_ZERO`: any free page, zeroed, or none when none is free. */
    method PallocGetPage() returns (page: nat)
      requires MemOk(mem, free)
      modifies this
      ensures if old(free) == {} then page == NULL && mem == old(mem) && free == old(free)
              else IsPage(page) && page in old(free) && page !in old(mem) && free == old(free) - {page} && mem == old(mem)[page := Zeros()]
      ensures MemOk(mem, free)
    {
      if free == {} { return NULL; }
      page :| page in free;
      free := free - {page};
      mem := mem[page := Zeros()];
    }

    /** `palloc_free_page`, of a page that is allocated. */
    method PallocFreePage(page: nat)
      requires page in mem && IsPage(page) && MemOk(mem, free)
      modifies this
      ensures mem == old(mem) - {page} && free == old(free) + {page} && MemOk(mem, free)
    {
      mem := mem - {page};
      free := free + {page};
    }

    /** A fresh zeroed page is hung into entry `i` of table `t`, if there is one. */
    method Hang(t: nat, i: nat, ghost place: map<nat, Place>, ghost pml4: nat, ghost vpn: nat) returns (page: nat, ghost place': map<nat, Place>)
      requires Ready(place, pml4) && IsTable(mem, place, t) && place[t].lvl >= 2 && i < ENTRIES && !Present(At(mem, t, i))
      requires OnPath(place, t, vpn, place[t].lvl)
      modifies this
      ensures Ready(place', pml4)
      ensures if old(free) == {} then page == NULL && mem == old(mem) && free == old(free) && place' == place
              else && page in old(free) && CanGrow(old(mem), place, t, i, page) && mem == Grown(old(mem), t, i, page)
                   && free == old(free) - {page} && place' == place[page := Below(place[t], i)]
                   && Extends(old(mem), old(free), place, mem, free, place', pml4, vpn)
    {
      place' := place;
      page := PallocGetPage();
      if page != NULL {
        FreshPage(old(mem), place, pml4, page);
        GrowExtends(old(mem), old(free), place, pml4, t, i, page, vpn);
        hide TreeOk;
        var words: seq<nat> := mem[t][i := Entry(page, true)];
        mem := mem[t := words];
        place' := place[page := Below(place[t], i)];
      }
    }

    /** The page just hung into entry `i` of `t` is given back, and the entry is cleared. */
    method Unhang(t: nat, i: nat, ghost m: Memory, ghost f: set<nat>, ghost place: map<nat, Place>, ghost pml4: nat, ghost page: nat)
      requires TreeOk(m, place, pml4) && MemOk(m, f) && CanGrow(m, place, t, i, page) && At(m, t, i) == 0 && page in f
      requires mem == Grown(m, t, i, page) && free == f - {page} && MemOk(mem, free)
      modifies this
      ensures mem == m && free == f
    {
      EntryFacts(page, true);
      hide TreeOk, Entry, IsPage;
      PallocFreePage(Target(mem[t][i]));
      var words: seq<nat> := mem[t][i := 0];
      mem := mem[t := words];
      assert mem[t] == m[t];
      assert mem == m;
    }

    /** The slot of the entry for `va` in the tree below page directory `pdp`, adding a table if asked. */
    method PgdirWalk(pdp: nat, va: nat, create: bool, ghost place: map<nat, Place>, ghost pml4: nat)
      returns (pte: Option<Slot>, ghost place': map<nat, Place>)
      requires Ready(place, pml4) && OnPath(place, pdp, Vpn(va), 2)
      modifies this
      ensures WalkOk(old(mem), old(free), place, mem, free, place', pml4, pdp, Vpn(va), 2, create, pte)
    {
      place' := place;
      Indices(va);
      PathTable(mem, place, pml4, pdp, Vpn(va), 2);
      hide TreeOk, MemOk, PDX, PTX, Idx;
      var idx := PDX(va);
      StandsStill(mem, free, place, pml4, Vpn(va));
      if !Present(mem[pdp][idx]) {
        if !create { return None, place'; }
        var new_page;
        new_page, place' := Hang(pdp, idx, place, pml4, Vpn(va));
        if new_page == NULL { return None, place'; }
        AfterHanging(old(mem), old(free), place, pml4, pdp, Vpn(va), 2, new_page);
      } else {
        Descend(mem, place, pml4, pdp, Vpn(va), 2);
      }
      pte := Some(Slot(Target(mem[pdp][idx]), PTX(va)));
    }

    /** The same from a page directory pointer table; what it added is given back when the rest fails. */
    method PdpeWalk(pdpe: nat, va: nat, create: bool, ghost place: map<nat, Place>, ghost pml4: nat)
      returns (pte: Option<Slot>, ghost place': map<nat, Place>)
      requires Ready(place, pml4) && OnPath(place, pdpe, Vpn(va), 3)
      modifies this
      ensures WalkOk(old(mem), old(free), place, mem, free, place', pml4, pdpe, Vpn(va), 3, create, pte)
    {
      place' := place;
      Indices(va);
      PathTable(mem, place, pml4, pdpe, Vpn(va), 3);
      hide TreeOk, MemOk, PDPE, Idx, Extends, WalkOk;
      var idx := PDPE(va);
      var added := false;
      StandsStill(mem, free, place, pml4, Vpn(va));
      if !Present(mem[pdpe][idx]) {
        if !create { StaysOut(mem, free, place, pml4, pdpe, Vpn(va), 3); return None, place'; }
        var new_page;
        new_page, place' := Hang(pdpe, idx, place, pml4, Vpn(va));
        if new_page == NULL { NoneFree(mem, free, place, pml4, pdpe, Vpn(va), 3); return None, place'; }
        added := true;
        AfterHanging(old(mem), old(free), place, pml4, pdpe, Vpn(va), 3, new_page);
      } else {
        Descend(mem, place, pml4, pdpe, Vpn(va), 3);
      }
      ghost var m1, f1, p1 := mem, free, place';
      ghost var child := Target(mem[pdpe][idx]);
      pte, place' := PgdirWalk(Target(mem[pdpe][idx]), va, create, place', pml4);
      if pte == None && added {
        Failed(m1, f1, p1, mem, free, place', pml4, child, Vpn(va), 3 - 1);
        Unhang(pdpe, idx, old(mem), old(free), place, pml4, child);
        place' := place;
        TooFew(mem, free, place, pml4, pdpe, Vpn(va), 3);
      } else {
        WalkThrough(old(mem), old(free), place, m1, f1, p1, mem, free, place', pml4, pdpe, child, Vpn(va), 3, create, pte);
      }
    }

    /** The same from the root. */
    method Pml4eWalk(pml4e: nat, va: nat, create: bool, ghost place: map<nat, Place>, ghost pml4: nat)
      returns (pte: Option<Slot>, ghost place': map<nat, Place>)
      requires Ready(place, pml4) && OnPath(place, pml4e, Vpn(va), 4)
      modifies this
      ensures WalkOk(old(mem), old(free), place, mem, free, place', pml4, pml4e, Vpn(va), 4, create, pte)
    {
      place' := place;
      Indices(va);
      PathTable(mem, place, pml4, pml4e, Vpn(va), 4);
      hide TreeOk, MemOk, PML4, Idx, Extends, WalkOk;
      var idx := PML4(va);
      var added := false;
      StandsStill(mem, free, place, pml4, Vpn(va));
      if !Present(mem[pml4e][idx]) {
        if !create { StaysOut(mem, free, place, pml4, pml4e, Vpn(va), 4); return None, place'; }
        var new_page;
        new_page, place' := Hang(pml4e, idx, place, pml4, Vpn(va));
        if new_page == NULL { NoneFree(mem, free, place, pml4, pml4e, Vpn(va), 4); return None, place'; }
        added := true;
        AfterHanging(old(mem), old(free), place, pml4, pml4e, Vpn(va), 4, new_page);
      } else {
        Descend(mem, place, pml4, pml4e, Vpn(va), 4);
      }
      ghost var m1, f1, p1 := mem, free, place';
      ghost var child := Target(mem[pml4e][idx]);
      pte, place' := PdpeWalk(Target(mem[pml4e][idx]), va, create, place', pml4);
      if pte == None && added {
        Failed(m1, f1, p1, mem, free, place', pml4, child, Vpn(va), 4 - 1);
        Unhang(pml4e, idx, old(mem), old(free), place, pml4, child);
        place' := place;
        TooFew(mem, free, place, pml4, pml4e, Vpn(va), 4);
      } else {
        WalkThrough(old(mem), old(free), place, m1, f1, p1, mem, free, place', pml4, pml4e, child, Vpn(va), 4, create, pte);
      }
    }

    /** `pml4_get_page`: the kernel address that a user address maps to, or NULL. */
    method Pml4GetPage(pml4: nat, uaddr: nat, ghost place: map<nat, Place>) returns (kaddr: nat)
      requires Ready(place, pml4) && uaddr < KERN_BASE
      modifies this
      ensures mem == old(mem) && free == old(free)
      ensures match Translation(mem, pml4, Vpn(uaddr)) case Some(to) => kaddr == to.frame + uaddr % PGSIZE case None => kaddr == NULL
    {
      UserVpn(uaddr);
      RootPath(mem, place, pml4, Vpn(uaddr));
      ghost var p';
      var pte;
      pte, p' := Pml4eWalk(pml4, uaddr, false, place, pml4);
      hide Extends, MemOk;
      if pte.Some? {
        SlotIsPte(mem, place, pml4, pte.value, Vpn(uaddr));
        hide TreeOk, Idx, WalkOk;
        if Present(mem[pte.value.table][pte.value.index]) {
          return Target(mem[pte.value.table][pte.value.index]) + uaddr % PGSIZE;
        }
      } else {
        MissingIsUnmapped(mem, pml4, Vpn(uaddr), ROOT_LEVEL);
      }
      return NULL;
    }

    /** Stores `e` in the slot of the entry for `vpn`. */
    method Store(pte: Slot, e: nat, ghost place: map<nat, Place>, ghost pml4: nat, ghost vpn: nat) returns (ghost place': map<nat, Place>)
      requires Ready(place, pml4) && OnPath(place, pte.table, vpn, 1) && pte.index == Idx(vpn, 1) && IsVpn(vpn)
      modifies this`mem
      ensures MemOk(mem, free) && Remapped(old(mem), mem, pml4, vpn, e)
      ensures IsTable(old(mem), place, pte.table) && mem == Written(old(mem), pte.table, pte.index, e)
      ensures place' == Replaced(place, vpn, Pte(old(mem), pml4, vpn), e)
      ensures CanWrite(old(mem), place, pte.table, vpn, e) ==> Ready(place', pml4)
    {
      PathTable(mem, place, pml4, pte.table, vpn, 1);
      SlotIsPte(mem, place, pml4, pte, vpn);
      if CanWrite(mem, place, pte.table, vpn, e) { WriteOk(mem, place, pml4, pte.table, vpn, e); }
      WriteRemaps(mem, place, pml4, pte.table, vpn, e);
      hide TreeOk, Remapped, Replaced, Pte, CanWrite;
      place' := Replaced(place, vpn, Pte(mem, pml4, vpn), e);
      var words: seq<nat> := mem[pte.table][pte.index := e];
      mem := mem[pte.table := words];
    }

    /** `pml4_set_page` maps `upage` to the frame at `kpage`, so that a user program may read it and, if and
        only if `rw`, write it; or it changes nothing when too few pages are free for the tables needed. The pages still form a tree if the frame is allocated and stands
        nowhere else in it. */
    method Pml4SetPage(pml4: nat, upage: nat, kpage: nat, rw: bool, ghost place: map<nat, Place>) returns (ok: bool, ghost place': map<nat, Place>)
      requires Ready(place, pml4) && upage % PGSIZE == 0 && upage < KERN_BASE && IsPage(kpage)
      modifies this
      ensures MemOk(mem, free)
      ensures !ok || FrameAvailable(old(mem), place, pml4, kpage, Vpn(upage)) ==> Ready(place', pml4)
      ensures ok <==> |old(free)| >= Missing(old(mem), pml4, Vpn(upage), ROOT_LEVEL)
      ensures !ok ==> mem == old(mem) && free == old(free) && place' == place
      ensures ok ==> Translation(mem, pml4, Vpn(upage)) == Some(Mapping(kpage, rw)) && Pte(mem, pml4, Vpn(upage)) == Entry(kpage, rw)
      ensures ok ==> !Bit(Pte(mem, pml4, Vpn(upage)), PTE_A) && !Bit(Pte(mem, pml4, Vpn(upage)), PTE_D)
      ensures ok ==> Allows(mem, pml4, Vpn(upage), ROOT_LEVEL, false) && (Allows(mem, pml4, Vpn(upage), ROOT_LEVEL, true) <==> rw)
      ensures forall v :: IsVpn(v) && v != Vpn(upage) ==> Pte(mem, pml4, v) == Pte(old(mem), pml4, v)
      ensures OnlyPath(old(mem), place, mem, Vpn(upage))
    {
      ghost var vpn := Vpn(upage);
      UserVpn(upage);
      RootPath(mem, place, pml4, vpn);
      EntryFacts(kpage, rw);
      var pte;
      pte, place' := Pml4eWalk(pml4, upage, true, place, pml4);
      hide IsVpn, Entry, IsPage;
      MemoryKept(old(mem), old(free), place, mem, free, place', pml4, vpn);
      if pte.Some? {
        if FrameAvailable(old(mem), place, pml4, kpage, vpn) {
          FrameStillAvailable(old(mem), old(free), place, mem, free, place', pml4, kpage, rw, vpn, pte.value);
        }
        hide TreeOk, Extends, Pte, CanWrite, FrameAvailable;
        ghost var m1, p1 := mem, place';
        place' := Store(pte.value, Entry(kpage, rw), place', pml4, vpn);
        StoreStands(old(mem), old(free), place, m1, p1, mem, pte.value, vpn, Entry(kpage, rw));
        StoreGrants(m1, p1, pml4, pte.value, vpn, kpage, rw);
      }
      ok := pte.Some?;
      hide TreeOk, MemOk, Pte, OnlyPath;
    }

    /** `pml4_clear_page`: the page is no longer present, and the rest of its entry stays. */
    method Pml4ClearPage(pml4: nat, upage: nat, ghost place: map<nat, Place>) returns (ghost place': map<nat, Place>)
      requires Ready(place, pml4) && upage % PGSIZE == 0 && upage < KERN_BASE
      modifies this
      ensures Ready(place', pml4) && free == old(free)
      ensures Translation(mem, pml4, Vpn(upage)) == None && !Allows(mem, pml4, Vpn(upage), ROOT_LEVEL, false)
      ensures var e := Pte(old(mem), pml4, Vpn(upage)); Pte(mem, pml4, Vpn(upage)) == if Present(e) then e - PTE_P else e
      ensures forall v :: IsVpn(v) && v != Vpn(upage) ==> Pte(mem, pml4, v) == Pte(old(mem), pml4, v)
      ensures OnlyPath(old(mem), place, mem, Vpn(upage)) && mem.Keys == old(mem).Keys
    {
      ghost var vpn := Vpn(upage);
      UserVpn(upage);
      RootPath(mem, place, pml4, vpn);
      var pte;
      pte, place' := Pml4eWalk(pml4, upage, false, place, pml4);
      hide IsVpn, Extends;
      if pte.Some? {
        SlotIsPte(mem, place, pml4, pte.value, vpn);
        var e := mem[pte.value.table][pte.value.index];
        if Present(e) {
          AbsentAfterClear(e);
          hide TreeOk, Pte;
          place' := Store(pte.value, WithoutBit(e, PTE_P), place, pml4, vpn);
        }
      } else {
        MissingIsUnmapped(mem, pml4, vpn, ROOT_LEVEL);
      }
      AllowsIsMapped(mem, pml4, vpn, ROOT_LEVEL, false);
    }

    /** `pml4_is_dirty`. */
    method Pml4IsDirty(pml4: nat, vpage: nat, ghost place: map<nat, Place>) returns (dirty: bool)
      requires Ready(place, pml4) && IsVpn(Vpn(vpage))
      modifies this
      ensures mem == old(mem) && free == old(free) && dirty == Bit(Pte(mem, pml4, Vpn(vpage)), PTE_D)
    {
      dirty := ReadFlag(pml4, vpage, PTE_D, place);
    }

    /** `pml4_is_accessed`. */
    method Pml4IsAccessed(pml4: nat, vpage: nat, ghost place: map<nat, Place>) returns (accessed: bool)
      requires Ready(place, pml4) && IsVpn(Vpn(vpage))
      modifies this
      ensures mem == old(mem) && free == old(free) && accessed == Bit(Pte(mem, pml4, Vpn(vpage)), PTE_A)
    {
      accessed := ReadFlag(pml4, vpage, PTE_A, place);
    }

    method ReadFlag(pml4: nat, vpage: nat, bit: nat, ghost place: map<nat, Place>) returns (on: bool)
      requires Ready(place, pml4) && IsVpn(Vpn(vpage)) && bit > 1
      modifies this
      ensures mem == old(mem) && free == old(free) && on == Bit(Pte(mem, pml4, Vpn(vpage)), bit)
    {
      RootPath(mem, place, pml4, Vpn(vpage));
      ghost var p';
      var pte;
      pte, p' := Pml4eWalk(pml4, vpage, false, place, pml4);
      hide Extends, MemOk;
      if pte.Some? {
        SlotIsPte(mem, place, pml4, pte.value, Vpn(vpage));
        return Bit(mem[pte.value.table][pte.value.index], bit);
      } else {
        MissingIsUnmapped(mem, pml4, Vpn(vpage), ROOT_LEVEL);
        return false;
      }
    }

    /** `pml4_set_dirty`: the bit is set or cleared, unless there is no entry for the page. No other page is
        affected; this one keeps its mapping if and only if the bit is set or the frame lies below 4 GiB, and
        then the pages still form the tree. */
    method Pml4SetDirty(pml4: nat, vpage: nat, on: bool, ghost place: map<nat, Place>)
      requires Ready(place, pml4) && IsVpn(Vpn(vpage))
      modifies this
      ensures MemOk(mem, free) && free == old(free)
      ensures forall v :: IsVpn(v) && v != Vpn(vpage) ==> Pte(mem, pml4, v) == Pte(old(mem), pml4, v)
      ensures if Missing(old(mem), pml4, Vpn(vpage), ROOT_LEVEL) == 0 then Bit(Pte(mem, pml4, Vpn(vpage)), PTE_D) == on else mem == old(mem)
      ensures Bit(Pte(mem, pml4, Vpn(vpage)), PTE_A) == Bit(Pte(old(mem), pml4, Vpn(vpage)), PTE_A)
      ensures FlagKept(old(mem), mem, pml4, Vpn(vpage)) <==> on || PteAddr(Pte(old(mem), pml4, Vpn(vpage))) < 0x1_0000_0000
      ensures FlagKept(old(mem), mem, pml4, Vpn(vpage)) ==> Ready(place, pml4)
    {
      ghost var vpn := Vpn(vpage);
      RootPath(mem, place, pml4, vpn);
      var pte;
      ghost var p';
      pte, p' := Pml4eWalk(pml4, vpage, false, place, pml4);
      hide IsVpn, Extends, Missing;
      if pte.Some? {
        SlotIsPte(mem, place, pml4, pte.value, vpn);
        var e := mem[pte.value.table][pte.value.index];
        FlagKeeps(mem, place, pml4, pte.value, vpn, e, PTE_D, on);
        hide TreeOk, Pte, CanWrite, WithBit, ClearedNarrow, SameMapping, Bit, PteAddr;
        p' := Store(pte.value, if on then WithBit(e, PTE_D) else ClearedNarrow(e, PTE_D), place, pml4, vpn);
      } else {
        NothingThere(mem, pml4, vpn);
      }
    }

    /** `pml4_set_accessed`: the bit is set or cleared, unless there is no entry for the page. No other page is
        affected; this one keeps its mapping if and only if the bit is set or the frame lies below 4 GiB, and
        then the pages still form the tree. */
    method Pml4SetAccessed(pml4: nat, vpage: nat, on: bool, ghost place: map<nat, Place>)
      requires Ready(place, pml4) && IsVpn(Vpn(vpage))
      modifies this
      ensures MemOk(mem, free) && free == old(free)
      ensures forall v :: IsVpn(v) && v != Vpn(vpage) ==> Pte(mem, pml4, v) == Pte(old(mem), pml4, v)
      ensures if Missing(old(mem), pml4, Vpn(vpage), ROOT_LEVEL) == 0 then Bit(Pte(mem, pml4, Vpn(vpage)), PTE_A) == on else mem == old(mem)
      ensures Bit(Pte(mem, pml4, Vpn(vpage)), PTE_D) == Bit(Pte(old(mem), pml4, Vpn(vpage)), PTE_D)
      ensures FlagKept(old(mem), mem, pml4, Vpn(vpage)) <==> on || PteAddr(Pte(old(mem), pml4, Vpn(vpage))) < 0x1_0000_0000
      ensures FlagKept(old(mem), mem, pml4, Vpn(vpage)) ==> Ready(place, pml4)
    {
      ghost var vpn := Vpn(vpage);
      RootPath(mem, place, pml4, vpn);
      var pte;
      ghost var p';
      pte, p' := Pml4eWalk(pml4, vpage, false, place, pml4);
      hide IsVpn, Extends, Missing;
      if pte.Some? {
        SlotIsPte(mem, place, pml4, pte.value, vpn);
        var e := mem[pte.value.table][pte.value.index];
        FlagKeeps(mem, place, pml4, pte.value, vpn, e, PTE_A, on);
        hide TreeOk, Pte, CanWrite, WithBit, ClearedNarrow, SameMapping, Bit, PteAddr;
        p' := Store(pte.value, if on then WithBit(e, PTE_A) else ClearedNarrow(e, PTE_A), place, pml4, vpn);
      } else {
        NothingThere(mem, pml4, vpn);
      }
    }
  }

  /** The page is mapped as before, its accessed and dirty bits apart. */
  ghost predicate FlagKept(m: Memory, m': Memory, pml4: nat, vpn: nat) {
    SameMapping(Pte(m, pml4, vpn), Pte(m', pml4, vpn))
  }

  lemma NothingThere(m: Memory, pml4: nat, vpn: nat)
    requires Missing(m, pml4, vpn, ROOT_LEVEL) > 0
    ensures PteAddr(Pte(m, pml4, vpn)) < 0x1_0000_0000
  {
    NoEntry(m, pml4, vpn, ROOT_LEVEL);
  }

  lemma {:induction false} NoEntry(m: Memory, t: nat, vpn: nat, lvl: nat)
    requires Missing(m, t, vpn, lvl) > 0
    ensures PteFrom(m, t, vpn, lvl) == 0
    decreases lvl
  {
    if Present(At(m, t, Idx(vpn, lvl))) { NoEntry(m, Target(At(m, t, Idx(vpn, lvl))), vpn, lvl - 1); }
  }

  lemma FreshPage(m: Memory, place: map<nat, Place>, pml4: nat, page: nat)
    requires TreeOk(m, place, pml4) && page !in m
    ensures page !in place
  {
    assert page in place ==> PageOk(m, place, page);
  }

  /** A user page number has at most 48 - 12 bits. */
  lemma UserVpn(uaddr: nat)
    requires uaddr < KERN_BASE
    ensures IsVpn(Vpn(uaddr))
  {
    var n := Vpn(uaddr);
    assert n < 0x8004000;
    assert n / 512 < 0x40020 && n / 512 / 512 < 0x201 && n / 512 / 512 / 512 <= 1;
    assert Up(n, 4) == Up(n / 512, 3) == Up(n / 512 / 512, 2) == Up(n / 512 / 512 / 512, 1) == n / 512 / 512 / 512 / 512;
  }

  lemma RootPath(m: Memory, place: map<nat, Place>, pml4: nat, vpn: nat)
    requires TreeOk(m, place, pml4) && IsVpn(vpn)
    ensures OnPath(place, pml4, vpn, ROOT_LEVEL)
  {
  }

  /** The slot that a walk finds holds the entry of the translation. */
  lemma SlotIsPte(m: Memory, place: map<nat, Place>, pml4: nat, pte: Slot, vpn: nat)
    requires TreeOk(m, place, pml4) && OnPath(place, pte.table, vpn, 1) && pte.index == Idx(vpn, 1) && IsVpn(vpn)
    ensures IsTable(m, place, pte.table) && pte.index < ENTRIES && m[pte.table][pte.index] == Pte(m, pml4, vpn)
  {
    PathIsUnique(m, place, pml4, pte.table, vpn, 1);
    PathTable(m, place, pml4, pte.table, vpn, 1);
    hide TreeOk, Up;
  }

  lemma {:induction false} MissingIsUnmapped(m: Memory, t: nat, vpn: nat, lvl: nat)
    requires Missing(m, t, vpn, lvl) > 0
    ensures PteFrom(m, t, vpn, lvl) == 0
    decreases lvl
  {
    var e := At(m, t, Idx(vpn, lvl));
    if lvl > 1 && Present(e) { MissingIsUnmapped(m, Target(e), vpn, lvl - 1); }
  }

  lemma {:induction false} AllowsIsMapped(m: Memory, t: nat, vpn: nat, lvl: nat, write: bool)
    ensures Allows(m, t, vpn, lvl, write) ==> Present(PteFrom(m, t, vpn, lvl))
    decreases lvl
  {
    if lvl > 1 { AllowsIsMapped(m, Target(At(m, t, Idx(vpn, lvl))), vpn, lvl - 1, write); }
  }

  /** Exactly the entry for `vpn` becomes `e`. */
  ghost predicate Remapped(m: Memory, m': Memory, pml4: nat, vpn: nat, e: nat) {
    forall v :: IsVpn(v) ==> Pte(m', pml4, v) == if v == vpn then e else Pte(m, pml4, v)
  }

  lemma WriteRemaps(m: Memory, place: map<nat, Place>, pml4: nat, t: nat, vpn: nat, e: nat)
    requires TreeOk(m, place, pml4) && IsTable(m, place, t) && OnPath(place, t, vpn, 1) && IsVpn(vpn)
    ensures Remapped(m, Written(m, t, Idx(vpn, 1), e), pml4, vpn, e)
  {
    forall v | IsVpn(v) ensures Pte(Written(m, t, Idx(vpn, 1), e), pml4, v) == if v == vpn then e else Pte(m, pml4, v) {
      WriteTranslates(m, place, pml4, t, vpn, e, v);
    }
  }

  /** `kpage` is allocated, and no table and no other private page uses it. */
  ghost predicate FrameAvailable(m: Memory, place: map<nat, Place>, pml4: nat, kpage: nat, vpn: nat) {
    Private(Place(0, vpn)) ==> kpage in m && (kpage in place ==> place[kpage] == Place(0, vpn))
  }

  lemma MemoryKept(m: Memory, free: set<nat>, place: map<nat, Place>, m': Memory, free': set<nat>, place': map<nat, Place>, pml4: nat, vpn: nat)
    requires Extends(m, free, place, m', free', place', pml4, vpn)
    ensures OnlyPath(m, place, m', vpn) && TreeOk(m', place', pml4) && MemOk(m', free')
    ensures forall v :: IsVpn(v) ==> Pte(m', pml4, v) == Pte(m, pml4, v)
  {
    hide TreeOk, MemOk, Pte, IsVpn;
  }

  lemma FrameStillAvailable(m: Memory, free: set<nat>, place: map<nat, Place>, m': Memory, free': set<nat>, place': map<nat, Place>,
                            pml4: nat, kpage: nat, rw: bool, vpn: nat, pte: Slot)
    requires Extends(m, free, place, m', free', place', pml4, vpn) && MemOk(m, free) && IsPage(kpage) && FrameAvailable(m, place, pml4, kpage, vpn)
    requires OnPath(place', pte.table, vpn, 1)
    ensures CanWrite(m', place', pte.table, vpn, Entry(kpage, rw))
  {
    EntryFacts(kpage, rw);
    PathTable(m', place', pml4, pte.table, vpn, 1);
    if Private(Place(0, vpn)) && kpage in place' {
      assert PageOk(m', place', kpage);
      var q :| HasParent(m', place', kpage, q);
      SplitNumber(vpn, 1);
      PlaceUnique(m', place', pml4, q, pte.table);
    }
    hide TreeOk, Entry, IsPage, Up, Private;
  }

  lemma StoreStands(m: Memory, free: set<nat>, place: map<nat, Place>, m1: Memory, p1: map<nat, Place>, m2: Memory, pte: Slot, vpn: nat, e: nat)
    requires OnlyPath(m, place, m1, vpn) && pte.table in m1 && pte.index < |m1[pte.table]| && m2 == Written(m1, pte.table, pte.index, e)
    requires OnPath(p1, pte.table, vpn, 1) && MemOk(m, free)
    requires forall p :: p in p1 ==> (p in place && p1[p] == place[p]) || p in free
    ensures OnlyPath(m, place, m2, vpn)
  {
    hide Up;
  }

  /** What a user program may do with a page is what its new entry says. */
  lemma StoreGrants(m: Memory, place: map<nat, Place>, pml4: nat, pte: Slot, vpn: nat, kpage: nat, rw: bool)
    requires TreeOk(m, place, pml4) && OnPath(place, pte.table, vpn, 1) && pte.index == Idx(vpn, 1) && IsVpn(vpn) && IsPage(kpage)
    requires IsTable(m, place, pte.table)
    ensures var m' := Written(m, pte.table, pte.index, Entry(kpage, rw));
            Allows(m', pml4, vpn, ROOT_LEVEL, false) && (Allows(m', pml4, vpn, ROOT_LEVEL, true) <==> rw)
  {
    var m' := Written(m, pte.table, pte.index, Entry(kpage, rw));
    EntryFacts(kpage, rw);
    RootPath(m, place, pml4, vpn);
    LowestDecides(m, m', place, pml4, pml4, vpn, ROOT_LEVEL, false);
    LowestDecides(m, m', place, pml4, pml4, vpn, ROOT_LEVEL, true);
    WriteTranslates(m, place, pml4, pte.table, vpn, Entry(kpage, rw), vpn);
    hide TreeOk, Entry, Allows, IsTable, Up;
  }

  /** Changing a flag of the entry for `vpn` moves no page. */
  lemma FlagKeeps(m: Memory, place: map<nat, Place>, pml4: nat, pte: Slot, vpn: nat, e: nat, bit: nat, on: bool)
    requires TreeOk(m, place, pml4) && OnPath(place, pte.table, vpn, 1) && pte.index == Idx(vpn, 1) && e == At(m, pte.table, pte.index)
    requires bit == PTE_A || bit == PTE_D
    ensures var e' := if on then WithBit(e, bit) else ClearedNarrow(e, bit);
            && Bit(e', bit) == on && Bit(e', OtherFlag(bit)) == Bit(e, OtherFlag(bit)) && (SameMapping(e, e') <==> on || PteAddr(e) < 0x1_0000_0000)
            && (SameMapping(e, e') ==> CanWrite(m, place, pte.table, vpn, e') && Replaced(place, vpn, e, e') == place)
  {
    WithBitKeeps(e, bit);
    ClearNarrowKeeps(e, bit);
    OtherFlagKept(e, bit);
    hide WithBit, ClearedNarrow, Bit;
    PathTable(m, place, pml4, pte.table, vpn, 1);
    RootStays(m, place, pml4, pte.table, vpn);
    if Present(e) && Private(Place(0, vpn)) { assert PageOk(m, place, Target(e)); }
    hide TreeOk, Private, Up;
  }
}
