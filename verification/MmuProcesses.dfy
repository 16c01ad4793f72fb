module MmuProcesses {
  // Address spaces that share the kernel's tables: what a process's page tables have to themselves, and which
  // user pages they do not.

  import opened PageTables
  import opened Mmu
  import opened MmuDestroy
  import opened MmuForEach

  // ----- pml4_create

  /** The tree of a fresh copy of the root `base`: the same tables below it. */
  ghost function CopiedPlace(place: map<nat, Place>, base: nat, page: nat): map<nat, Place> {
    (place - {base})[page := Place(ROOT_LEVEL, 0)]
  }

  ghost predicate KernelOnly(place: map<nat, Place>) {
    forall t :: t in place ==> !Private(place[t])
  }

  lemma CopyPages(m: Memory, place: map<nat, Place>, base: nat, page: nat)
    requires TreeOk(m, place, base) && page !in m && IsPage(page) && base in m
    ensures var m', place' := m[page := m[base]], CopiedPlace(place, base, page);
            forall t :: t in place' ==> PageOk(m', place', t)
  {
    FreshPage(m, place, base, page);
    var m', place' := m[page := m[base]], CopiedPlace(place, base, page);
    hide IsPage, Present, Target, Private;
    forall t | t in place' ensures PageOk(m', place', t) {
      assert PageOk(m, place, if t == page then base else t);
      if t != page && place[t].lvl < ROOT_LEVEL {
        var p :| HasParent(m, place, t, p);
        var p' := if p == base then page else p;
        assert HasParent(m', place', t, p');
      }
    }
  }

  lemma CopyOk(m: Memory, place: map<nat, Place>, base: nat, page: nat)
    requires TreeOk(m, place, base) && KernelOnly(place) && page !in m && IsPage(page) && base in m
    ensures TreeOk(m[page := m[base]], CopiedPlace(place, base, page), page)
  {
    FreshPage(m, place, base, page);
    CopyPages(m, place, base, page);
    var m', place' := m[page := m[base]], CopiedPlace(place, base, page);
    hide IsPage, Present, Target, Private, PageOk;
    forall t, i: nat | t in place' && place'[t].lvl >= 1 && i < ENTRIES ensures EntryOk(m', place', t, i) {
      assert EntryOk(m, place, if t == page then base else t, i);
    }
  }

  lemma BaseIsThere(m: Memory, place: map<nat, Place>, base: nat)
    requires TreeOk(m, place, base)
    ensures base in m
  {
    assert PageOk(m, place, base);
  }

  /** `pml4_create`: a new address space that translates every page as the kernel's base tables do, and
      hence no private page; or NULL when no page is free. */
  method Pml4Create(c: Machine, base_pml4: nat, ghost place: map<nat, Place>) returns (pml4: nat, ghost place': map<nat, Place>)
    requires c.Ready(place, base_pml4) && KernelOnly(place)
    modifies c
    ensures pml4 == NULL ==> c.mem == old(c.mem) && c.free == old(c.free) && c.free == {}
    ensures pml4 != NULL ==>
              && c.Ready(place', pml4) && pml4 !in old(c.mem) && c.free == old(c.free) - {pml4}
              && (forall p :: p in old(c.mem) ==> p in c.mem && c.mem[p] == old(c.mem)[p])
              && (forall v :: IsVpn(v) ==> Pte(c.mem, pml4, v) == Pte(old(c.mem), base_pml4, v))
              && (forall v :: Private(Place(0, v)) ==> Translation(c.mem, pml4, v) == None)
              && (forall i :: At(c.mem, pml4, i) == At(c.mem, base_pml4, i))
  {
    ghost var m := c.mem;
    place' := place;
    pml4 := c.PallocGetPage();
    if pml4 != NULL {
      BaseIsThere(m, place, base_pml4);
      CopyOk(m, place, base_pml4, pml4);
      CopyTranslates(m, place, base_pml4, pml4);
      NothingPrivate(m, place, base_pml4);
      hide TreeOk, Pte, IsVpn, KernelOnly, Private;
      c.mem := c.mem[pml4 := c.mem[base_pml4]];
      assert c.mem == m[pml4 := m[base_pml4]];
      place' := CopiedPlace(place, base_pml4, pml4);
    }
  }

  lemma CopyTranslates(m: Memory, place: map<nat, Place>, base: nat, page: nat)
    requires TreeOk(m, place, base) && page !in m && base in m
    ensures forall v :: IsVpn(v) ==> Pte(m[page := m[base]], page, v) == Pte(m, base, v)
  {
    FreshPage(m, place, base, page);
    var m' := m[page := m[base]];
    forall v | IsVpn(v) ensures Pte(m', page, v) == Pte(m, base, v) {
      if Present(At(m, base, Idx(v, 4))) {
        StepDown(m, place, base, base, v, 4);
        SameWalk(m, m', place, base, Target(At(m, base, Idx(v, 4))), v, 3);
      }
    }
  }

  lemma NothingPrivate(m: Memory, place: map<nat, Place>, base: nat)
    requires TreeOk(m, place, base) && KernelOnly(place)
    ensures forall v :: Private(Place(0, v)) ==> IsVpn(v) && !Present(Pte(m, base, v))
  {
    assert EntryOk(m, place, base, 0);
    assert Below(place[base], 0) == Place(3, 0) && Up(0, 0) == 0;
    forall v | Private(Place(0, v)) ensures IsVpn(v) && !Present(Pte(m, base, v)) {
      UpStep(v, 3);
      assert Idx(v, 4) == 0;
      assert !Present(At(m, base, 0));
    }
  }

  // ----- what pml4_destroy frees

  lemma {:induction false} PresentHasSlot(m: Memory, place: map<nat, Place>, pml4: nat, t: nat, vpn: nat, lvl: nat) returns (slot: nat)
    requires TreeOk(m, place, pml4) && OnPath(place, t, vpn, lvl) && lvl >= 1 && Present(PteFrom(m, t, vpn, lvl))
    ensures OnPath(place, slot, vpn, 1) && At(m, slot, Idx(vpn, 1)) == PteFrom(m, t, vpn, lvl)
    decreases lvl
  {
    if lvl == 1 {
      slot := t;
    } else {
      StepDown(m, place, pml4, t, vpn, lvl);
      slot := PresentHasSlot(m, place, pml4, Target(At(m, t, Idx(vpn, lvl))), vpn, lvl - 1);
    }
  }

  /** The frames that `pml4_destroy` frees are exactly those that private pages translate to. */
  lemma FreedFrames(m: Memory, place: map<nat, Place>, pml4: nat, f: nat)
    requires TreeOk(m, place, pml4)
    ensures f in Freed(place, pml4) && place[f].lvl == 0 <==>
            exists v :: Private(Place(0, v)) && Translation(m, pml4, v).Some? && Translation(m, pml4, v).value.frame == f
  {
    if f in place && place[f].lvl == 0 {
      var v := place[f].pre;
      assert PageOk(m, place, f);
      var p :| HasParent(m, place, f, p);
      UpStep(v, 3);
      assert Up(v, 0) == v && Up(v, 1) == v / ENTRIES;
      assert Idx(v, 1) == v % ENTRIES;
      PathIsUnique(m, place, pml4, p, v, 1);
      assert Translation(m, pml4, v).Some? && Translation(m, pml4, v).value.frame == f;
    }
    forall v | Private(Place(0, v)) && Translation(m, pml4, v).Some? && Translation(m, pml4, v).value.frame == f
      ensures f in Freed(place, pml4) && place[f].lvl == 0
    {
      PrivateFrame(m, place, pml4, v);
    }
  }

  lemma PrivateFrame(m: Memory, place: map<nat, Place>, pml4: nat, v: nat)
    requires TreeOk(m, place, pml4) && Private(Place(0, v)) && Present(Pte(m, pml4, v))
    ensures Target(Pte(m, pml4, v)) in place && place[Target(Pte(m, pml4, v))] == Place(0, v)
  {
    UpStep(v, 3);
    RootPath(m, place, pml4, v);
    var slot := PresentHasSlot(m, place, pml4, pml4, v, 4);
    SplitNumber(v, 1);
    assert EntryOk(m, place, slot, Idx(v, 1));
  }

  /** No frame is mapped at two private pages. */
  lemma FramesAreDistinct(m: Memory, place: map<nat, Place>, pml4: nat, v: nat, w: nat)
    requires TreeOk(m, place, pml4) && Private(Place(0, v)) && Private(Place(0, w))
    requires Present(Pte(m, pml4, v)) && Present(Pte(m, pml4, w)) && Target(Pte(m, pml4, v)) == Target(Pte(m, pml4, w))
    ensures v == w
  {
    PrivateFrame(m, place, pml4, v);
    PrivateFrame(m, place, pml4, w);
  }

  // ----- frames mapped at two pages

  /** Two private pages are mapped to one frame. */
  ghost predicate ShareFrame(m: Memory, pml4: nat, v: nat, w: nat) {
    && Private(Place(0, v)) && Private(Place(0, w)) && Present(Pte(m, pml4, v)) && Present(Pte(m, pml4, w))
    && Target(Pte(m, pml4, v)) == Target(Pte(m, pml4, w))
  }

  ghost predicate InjectiveOnPrivate(m: Memory, pml4: nat) {
    forall v, w :: ShareFrame(m, pml4, v, w) ==> v == w
  }

  ghost predicate NoneTwice(s: seq<nat>) {
    forall i, j :: 0 <= i < j < |s| ==> s[i] != s[j]
  }

  /** The frames given back are those of the visits, in the same order. */
  lemma {:induction false} FramesOfVisits(m: Memory, t: nat, pre: nat, lvl: nat, i: nat)
    requires lvl >= 1 && i <= ENTRIES
    ensures |FramesFrom(m, t, lvl, i)| == |VisitsFrom(m, t, pre, lvl, i)|
    ensures forall k :: 0 <= k < |FramesFrom(m, t, lvl, i)| ==> FramesFrom(m, t, lvl, i)[k] == FrameOf(m, VisitsFrom(m, t, pre, lvl, i)[k])
    decreases lvl, ENTRIES - i
  {
    if i < ENTRIES {
      FramesOfVisitsAt(m, t, pre, lvl, i);
      FramesOfVisits(m, t, pre, lvl, i + 1);
      hide VisitsAt, FramesAt;
    }
  }

  function FrameOf(m: Memory, v: Visit): nat {
    Target(At(m, v.slot.table, v.slot.index))
  }

  lemma {:induction false} FramesOfVisitsAt(m: Memory, t: nat, pre: nat, lvl: nat, i: nat)
    requires lvl >= 1 && i < ENTRIES
    ensures |FramesAt(m, t, lvl, i)| == |VisitsAt(m, t, pre, lvl, i)|
    ensures forall k :: 0 <= k < |FramesAt(m, t, lvl, i)| ==> FramesAt(m, t, lvl, i)[k] == FrameOf(m, VisitsAt(m, t, pre, lvl, i)[k])
    decreases lvl, 0
  {
    if lvl > 1 && Present(At(m, t, i)) { FramesOfVisits(m, Target(At(m, t, i)), pre * ENTRIES + i, lvl - 1, 0); }
    hide VisitsFrom, FramesFrom;
  }

  /** The visits below entry 0 of the root are those of the private pages that are mapped. */
  lemma PrivateVisits(m: Memory, pml4: nat, n: nat)
    requires Private(Place(0, n)) && Present(Pte(m, pml4, n))
    ensures exists k :: 0 <= k < |VisitsAt(m, pml4, 0, ROOT_LEVEL, 0)| && VisitsAt(m, pml4, 0, ROOT_LEVEL, 0)[k].va == n * PGSIZE
  {
    UpStep(n, 3);
    hide VisitsAt, VisitsFrom, Up;
    NoneLeftOut(m, pml4, 0, ROOT_LEVEL, 0, n);
    var v :| v in VisitsFrom(m, pml4, 0, ROOT_LEVEL, 0) && v.va == n * PGSIZE;
    PageOfVa(n);
    VisitsAre(m, pml4, 0, ROOT_LEVEL, 1);
    FirstEntry(m, pml4);
    assert v in VisitsAt(m, pml4, 0, ROOT_LEVEL, 0);
  }

  lemma FirstEntry(m: Memory, pml4: nat)
    ensures VisitsFrom(m, pml4, 0, ROOT_LEVEL, 0) == VisitsAt(m, pml4, 0, ROOT_LEVEL, 0) + VisitsFrom(m, pml4, 0, ROOT_LEVEL, 1)
  {
    hide VisitsAt;
  }

  lemma VisitIsPrivate(m: Memory, pml4: nat, v: Visit)
    requires v in VisitsAt(m, pml4, 0, ROOT_LEVEL, 0)
    ensures var n := v.va / PGSIZE; v.va == n * PGSIZE && Private(Place(0, n)) && Present(Pte(m, pml4, n)) && FrameOf(m, v) == Target(Pte(m, pml4, n))
  {
    VisitsAtAre(m, pml4, 0, ROOT_LEVEL, 0);
    SplitNumber(v.va / PGSIZE, ROOT_LEVEL);
    hide VisitsAt, Up;
  }

  lemma PageHasPosition(m: Memory, pml4: nat, n: nat) returns (k: nat)
    requires Private(Place(0, n)) && Present(Pte(m, pml4, n))
    ensures k < |FramesAt(m, pml4, ROOT_LEVEL, 0)| == |VisitsAt(m, pml4, 0, ROOT_LEVEL, 0)|
    ensures VisitsAt(m, pml4, 0, ROOT_LEVEL, 0)[k].va == n * PGSIZE && FramesAt(m, pml4, ROOT_LEVEL, 0)[k] == Target(Pte(m, pml4, n))
  {
    FramesOfVisitsAt(m, pml4, 0, ROOT_LEVEL, 0);
    hide VisitsAt, FramesAt, Private, Pte, FrameOf;
    PrivateVisits(m, pml4, n);
    k :| 0 <= k < |VisitsAt(m, pml4, 0, ROOT_LEVEL, 0)| && VisitsAt(m, pml4, 0, ROOT_LEVEL, 0)[k].va == n * PGSIZE;
    VisitIsPrivate(m, pml4, VisitsAt(m, pml4, 0, ROOT_LEVEL, 0)[k]);
    PageOfVa(n);
  }

  lemma PositionHasPage(m: Memory, pml4: nat, k: nat) returns (n: nat)
    requires k < |FramesAt(m, pml4, ROOT_LEVEL, 0)|
    ensures |FramesAt(m, pml4, ROOT_LEVEL, 0)| == |VisitsAt(m, pml4, 0, ROOT_LEVEL, 0)| && VisitsAt(m, pml4, 0, ROOT_LEVEL, 0)[k].va == n * PGSIZE
    ensures Private(Place(0, n)) && Present(Pte(m, pml4, n)) && FramesAt(m, pml4, ROOT_LEVEL, 0)[k] == Target(Pte(m, pml4, n))
  {
    FramesOfVisitsAt(m, pml4, 0, ROOT_LEVEL, 0);
    hide VisitsAt, FramesAt, Private, Pte, FrameOf;
    var v := VisitsAt(m, pml4, 0, ROOT_LEVEL, 0)[k];
    VisitIsPrivate(m, pml4, v);
    n := v.va / PGSIZE;
  }

  /** `pml4_destroy` gives every frame back once if and only if no two private pages are mapped to one frame. */
  lemma FreedOnceIffInjective(m: Memory, pml4: nat)
    ensures NoneTwice(FramesAt(m, pml4, ROOT_LEVEL, 0)) <==> InjectiveOnPrivate(m, pml4)
  {
    if NoneTwice(FramesAt(m, pml4, ROOT_LEVEL, 0)) { FreedOnceIsInjective(m, pml4); }
    if InjectiveOnPrivate(m, pml4) { InjectiveIsFreedOnce(m, pml4); }
    hide FramesAt, InjectiveOnPrivate, NoneTwice;
  }

  lemma FreedOnceIsInjective(m: Memory, pml4: nat)
    requires NoneTwice(FramesAt(m, pml4, ROOT_LEVEL, 0))
    ensures InjectiveOnPrivate(m, pml4)
  {
    hide VisitsAt, FramesAt, Private, Pte;
    forall v, w | ShareFrame(m, pml4, v, w) ensures v == w {
      var i := PageHasPosition(m, pml4, v);
      var j := PageHasPosition(m, pml4, w);
      assert i == j;
      SamePage(v, w);
    }
  }

  lemma SamePage(v: nat, w: nat)
    requires v * PGSIZE == w * PGSIZE
    ensures v == w
  {
  }

  lemma InjectiveIsFreedOnce(m: Memory, pml4: nat)
    requires InjectiveOnPrivate(m, pml4)
    ensures NoneTwice(FramesAt(m, pml4, ROOT_LEVEL, 0))
  {
    VisitsAtAre(m, pml4, 0, ROOT_LEVEL, 0);
    hide VisitsAt, FramesAt, Private, Pte, IsFor;
    var frames := FramesAt(m, pml4, ROOT_LEVEL, 0);
    forall i, j | 0 <= i < j < |frames| ensures frames[i] != frames[j] {
      var v := PositionHasPage(m, pml4, i);
      var w := PositionHasPage(m, pml4, j);
      assert !ShareFrame(m, pml4, v, w);
    }
  }

  /** Mapping a private page to the frame of another one, which `pml4_set_page` does without objection, makes
      `pml4_destroy` give that frame back twice. */
  lemma MappedTwiceIsFreedTwice(m: Memory, m': Memory, pml4: nat, v: nat, w: nat, e: nat)
    requires Private(Place(0, v)) && Private(Place(0, w)) && v != w && Present(Pte(m, pml4, v))
    requires Remapped(m, m', pml4, w, e) && Present(e) && Target(e) == Target(Pte(m, pml4, v))
    ensures ShareFrame(m', pml4, v, w) && !NoneTwice(FramesAt(m', pml4, ROOT_LEVEL, 0))
  {
    UpStep(v, 3);
    UpStep(w, 3);
    hide Up, Pte, FramesAt;
    assert IsVpn(v) && IsVpn(w);
    FreedOnceIffInjective(m', pml4);
  }

  /** One such memory: pages 0 and 1 have the same frame. */
  lemma FrameFreedTwice() returns (m: Memory, pml4: nat)
    ensures ShareFrame(m, pml4, 0, 1) && !NoneTwice(FramesAt(m, pml4, ROOT_LEVEL, 0))
  {
    pml4 := KERN_BASE;
    var pdp, pd, pt, frame := KERN_BASE + PGSIZE, KERN_BASE + 2 * PGSIZE, KERN_BASE + 3 * PGSIZE, KERN_BASE + 4 * PGSIZE;
    m := map[pml4 := Zeros()[0 := Entry(pdp, true)], pdp := Zeros()[0 := Entry(pd, true)],
             pd := Zeros()[0 := Entry(pt, true)], pt := Zeros()[0 := Entry(frame, true)][1 := Entry(frame, true)]];
    FirstIndices();
    EntryFacts(pdp, true);
    EntryFacts(pd, true);
    EntryFacts(pt, true);
    EntryFacts(frame, true);
    WalksTo(m, pml4, pdp, pd, pt, frame, 0);
    WalksTo(m, pml4, pdp, pd, pt, frame, 1);
    hide Pte, FramesAt, Entry, Private;
    FreedOnceIffInjective(m, pml4);
  }

  lemma FirstIndices()
    ensures forall lvl: nat :: 2 <= lvl <= 4 ==> Idx(0, lvl) == 0 && Idx(1, lvl) == 0
    ensures Idx(0, 1) == 0 && Idx(1, 1) == 1 && Private(Place(0, 0)) && Private(Place(0, 1))
  {
    assert Up(0, 1) == 0 && Up(0, 2) == 0 && Up(0, 3) == 0;
    assert Up(1, 1) == 0 && Up(1, 2) == 0 && Up(1, 3) == 0;
  }

  lemma WalksTo(m: Memory, pml4: nat, pdp: nat, pd: nat, pt: nat, frame: nat, n: nat)
    requires Idx(n, 4) == Idx(n, 3) == Idx(n, 2) == 0
    requires Present(At(m, pml4, 0)) && Target(At(m, pml4, 0)) == pdp && Present(At(m, pdp, 0)) && Target(At(m, pdp, 0)) == pd
    requires Present(At(m, pd, 0)) && Target(At(m, pd, 0)) == pt && Present(At(m, pt, Idx(n, 1))) && Target(At(m, pt, Idx(n, 1))) == frame
    ensures Present(Pte(m, pml4, n)) && Target(Pte(m, pml4, n)) == frame
  {
    assert PteFrom(m, pd, n, 2) == PteFrom(m, pt, n, 1);
    assert PteFrom(m, pdp, n, 3) == PteFrom(m, pd, n, 2);
  }

  // ----- which user pages are private

  /** User addresses go up to KERN_BASE, but entry 0 of the root covers only those below 2^39; the rest are
      below entry 1, which the kernel's own addresses use too. */
  lemma PrivateIsBelow512G(uaddr: nat)
    requires uaddr < KERN_BASE
    ensures Private(Place(0, Vpn(uaddr))) <==> uaddr < 0x80_0000_0000
    ensures uaddr >= 0x80_0000_0000 ==> PML4(uaddr) == 1 && PML4(KERN_BASE) == 1
  {
    Indices(uaddr);
    var n := Vpn(uaddr);
    assert Up(n, 3) == Up(n / 512, 2) == Up(n / 512 / 512, 1) == n / 512 / 512 / 512;
    assert n / 512 / 512 / 512 == uaddr / 0x80_0000_0000 by { DivDiv1(uaddr); DivDiv2(uaddr); DivDiv3(uaddr); }
    hide Up;
  }

  /** Two processes keep apart: their trees have at most tables of the kernel in common. */
  ghost predicate Apart(place1: map<nat, Place>, pml4: nat, place2: map<nat, Place>) {
    forall p :: p in place1 && p in place2 ==> p != pml4 && !Private(place1[p])
  }

  /** A change on the way to a private page of one process leaves every translation of another. */
  lemma OthersAreSafe(m: Memory, place1: map<nat, Place>, pml4: nat, m': Memory, vpn: nat, place2: map<nat, Place>, other: nat, v: nat)
    requires TreeOk(m, place1, pml4) && TreeOk(m, place2, other) && Apart(place1, pml4, place2)
    requires Private(Place(0, vpn)) && OnlyPath(m, place1, m', vpn) && IsVpn(v)
    ensures Pte(m', other, v) == Pte(m, other, v)
  {
    forall t | t in place2 && place2[t].lvl >= 1 && OnPath(place2, t, v, place2[t].lvl)
      ensures At(m', t, Idx(v, place2[t].lvl)) == At(m, t, Idx(v, place2[t].lvl))
    {
      assert PageOk(m, place2, t);
      if t in place1 && OnPath(place1, t, vpn, place1[t].lvl) { OnTheWayIsPrivate(place1, t, vpn, place1[t].lvl); }
    }
    SameWalk(m, m', place2, other, other, v, ROOT_LEVEL);
  }

  lemma OnTheWayIsPrivate(place: map<nat, Place>, t: nat, vpn: nat, lvl: nat)
    requires OnPath(place, t, vpn, lvl) && Private(Place(0, vpn))
    ensures lvl < ROOT_LEVEL ==> Private(place[t])
  {
    if lvl < ROOT_LEVEL { UpUp(vpn, lvl, 3 - lvl); }
  }

  /** The two roots lead to the same tables but for entry 0. */
  ghost predicate ShareKernel(m: Memory, pml4: nat, other: nat) {
    forall i :: 1 <= i < ENTRIES ==> At(m, other, i) == At(m, pml4, i)
  }

  /** But a user page that is not private has one entry for all processes that share the kernel's tables:
      what is written there for one of them, the others translate by. */
  lemma HighPagesAreShared(m: Memory, place: map<nat, Place>, pml4: nat, t: nat, vpn: nat, e: nat, other: nat)
    requires TreeOk(m, place, pml4) && IsTable(m, place, t) && OnPath(place, t, vpn, 1) && IsVpn(vpn) && !Private(Place(0, vpn))
    requires other !in place && ShareKernel(m, pml4, other)
    ensures Pte(Written(m, t, Idx(vpn, 1), e), other, vpn) == e
  {
    NotBelowZero(vpn);
    SameEntryShared(m, place, pml4, t, vpn, e, other);
    hide TreeOk, Private;
  }

  lemma NotBelowZero(vpn: nat)
    requires IsVpn(vpn) && !Private(Place(0, vpn))
    ensures 1 <= Idx(vpn, 4) < ENTRIES
  {
    UpStep(vpn, 3);
  }

  lemma SameEntryShared(m: Memory, place: map<nat, Place>, pml4: nat, t: nat, vpn: nat, e: nat, other: nat)
    requires TreeOk(m, place, pml4) && IsTable(m, place, t) && OnPath(place, t, vpn, 1) && IsVpn(vpn)
    requires other !in place && At(m, other, Idx(vpn, 4)) == At(m, pml4, Idx(vpn, 4))
    ensures Pte(Written(m, t, Idx(vpn, 1), e), other, vpn) == e
  {
    var m' := Written(m, t, Idx(vpn, 1), e);
    WriteTranslates(m, place, pml4, t, vpn, e, vpn);
    assert At(m', other, Idx(vpn, 4)) == At(m', pml4, Idx(vpn, 4));
    hide TreeOk;
  }

  /** Destroying one process leaves every translation of another, and every page of its tree. */
  lemma DestroyLeavesOthers(m: Memory, place1: map<nat, Place>, pml4: nat, place2: map<nat, Place>, other: nat, v: nat)
    requires TreeOk(m, place1, pml4) && TreeOk(m, place2, other) && Apart(place1, pml4, place2) && IsVpn(v)
    ensures Pte(m - Freed(place1, pml4), other, v) == Pte(m, other, v)
    ensures forall p :: p in place2 ==> p in m - Freed(place1, pml4)
  {
    var m' := m - Freed(place1, pml4);
    forall p | p in place2 ensures p in m' && m'[p] == m[p] { assert PageOk(m, place2, p); }
    hide Up, Private;
    SameWalk(m, m', place2, other, other, v, ROOT_LEVEL);
  }
}
