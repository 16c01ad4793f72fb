/** threads/mmu.c: giving back the private part of a tree of page tables. */
module MmuDestroy {
  import opened PageTables
  import opened Mmu

  /** The page stands at `p` or below it. */
  ghost predicate InSubtree(at: Place, p: Place) {
    at.lvl <= p.lvl && Up(at.pre, p.lvl - at.lvl) == p.pre
  }

  ghost function Subtree(place: map<nat, Place>, p: Place): set<nat> {
    set q | q in place && InSubtree(place[q], p)
  }

  /** The pages that the first `i` entries of the table at `p` lead to, directly or not. */
  ghost function FirstBranches(place: map<nat, Place>, p: Place, i: nat): set<nat> {
    set q | q in place && place[q].lvl < p.lvl && p.pre * ENTRIES <= Up(place[q].pre, p.lvl - 1 - place[q].lvl) < p.pre * ENTRIES + i
  }

  /** Every page has an ancestor at each level above it. */
  lemma {:induction false} Ancestor(m: Memory, place: map<nat, Place>, pml4: nat, q: nat, lvl: nat) returns (a: nat)
    requires TreeOk(m, place, pml4) && q in place && place[q].lvl <= lvl <= ROOT_LEVEL
    ensures a in place && place[a] == Place(lvl, Up(place[q].pre, lvl - place[q].lvl))
    decreases lvl - place[q].lvl
  {
    if place[q].lvl == lvl {
      a := q;
    } else {
      assert PageOk(m, place, q);
      var p :| HasParent(m, place, q, p);
      a := Ancestor(m, place, pml4, p, lvl);
    }
  }

  /** A page below the place that entry `i` of `t` leads to is there only because that entry is present. */
  lemma BranchIsPresent(m: Memory, place: map<nat, Place>, pml4: nat, t: nat, i: nat, q: nat)
    requires TreeOk(m, place, pml4) && t in place && place[t].lvl >= 1 && i < ENTRIES
    requires q in place && InSubtree(place[q], Below(place[t], i))
    ensures Present(At(m, t, i))
  {
    var a := Ancestor(m, place, pml4, q, place[t].lvl - 1);
    assert PageOk(m, place, a);
    assert place[a] == Below(place[t], i);
    assert place[a].pre / ENTRIES == place[t].pre && place[a].pre % ENTRIES == i;
    assert place[a].lvl < ROOT_LEVEL;
    var p :| HasParent(m, place, a, p);
    PlaceUnique(m, place, pml4, p, t);
  }

  lemma NextBranch(m: Memory, place: map<nat, Place>, pml4: nat, t: nat, i: nat)
    requires TreeOk(m, place, pml4) && t in place && place[t].lvl >= 1 && i < ENTRIES
    ensures FirstBranches(place, place[t], i + 1) ==
              FirstBranches(place, place[t], i) + (if Present(At(m, t, i)) then Subtree(place, Below(place[t], i)) else {})
    ensures FirstBranches(place, place[t], i) !! Subtree(place, Below(place[t], i))
  {
    var p := place[t];
    forall q | q in place && InSubtree(place[q], Below(p, i)) ensures Present(At(m, t, i)) {
      BranchIsPresent(m, place, pml4, t, i, q);
    }
    hide TreeOk, Up;
  }

  lemma AllBranches(m: Memory, place: map<nat, Place>, pml4: nat, t: nat)
    requires TreeOk(m, place, pml4) && t in place && place[t].lvl >= 1
    ensures Subtree(place, place[t]) == {t} + FirstBranches(place, place[t], ENTRIES)
    ensures t !in FirstBranches(place, place[t], ENTRIES)
  {
    var p := place[t];
    forall q | q in place && InSubtree(place[q], p) ensures q == t || q in FirstBranches(place, p, ENTRIES) {
      if place[q].lvl == p.lvl {
        PlaceUnique(m, place, pml4, q, t);
      } else {
        UpStep(place[q].pre, p.lvl - 1 - place[q].lvl);
      }
    }
    forall q | q in FirstBranches(place, p, ENTRIES) ensures InSubtree(place[q], p) {
      UpStep(place[q].pre, p.lvl - 1 - place[q].lvl);
    }
  }

  lemma NoBranches(place: map<nat, Place>, p: Place)
    ensures FirstBranches(place, p, 0) == {}
  {
  }

  /** A frame is a subtree of its own. */
  lemma FrameAlone(m: Memory, place: map<nat, Place>, pml4: nat, f: nat)
    requires TreeOk(m, place, pml4) && f in place && place[f].lvl == 0
    ensures Subtree(place, place[f]) == {f}
  {
    forall q | q in place && InSubtree(place[q], place[f]) ensures q == f {
      PlaceUnique(m, place, pml4, q, f);
    }
  }

  /** What is left of the memory `m` of a sound tree when the subtree at `p` is about to be freed. */
  ghost predicate ReadyToFree(m: Memory, place: map<nat, Place>, pml4: nat, now: Memory, t: nat, lvl: nat) {
    && TreeOk(m, place, pml4) && t in place && place[t].lvl == lvl && Private(place[t])
    && forall q :: q in Subtree(place, place[t]) ==> q in now && q in m && now[q] == m[q]
  }

  lemma BranchReady(m: Memory, place: map<nat, Place>, pml4: nat, before: Memory, now: Memory, t: nat, i: nat, lvl: nat)
    requires ReadyToFree(m, place, pml4, before, t, lvl) && lvl >= 1 && i < ENTRIES
    requires now == before - FirstBranches(place, place[t], i)
    ensures IsTable(m, place, t) && t in now && now[t] == m[t] && IsPage(t)
    ensures Present(now[t][i]) ==>
              && Target(now[t][i]) in place && place[Target(now[t][i])] == Below(place[t], i) && IsPage(Target(now[t][i]))
              && ReadyToFree(m, place, pml4, now, Target(now[t][i]), lvl - 1)
  {
    AllBranches(m, place, pml4, t);
    NextBranch(m, place, pml4, t, i);
    assert PageOk(m, place, t) && t in Subtree(place, place[t]);
    assert t !in FirstBranches(place, place[t], i);
    StillPrivate(place[t], i);
    assert EntryOk(m, place, t, i);
    if Present(m[t][i]) {
      assert PageOk(m, place, Target(m[t][i]));
      BranchInside(place, place[t], i);
    }
    hide TreeOk, Up, Private;
  }

  lemma StillPrivate(p: Place, i: nat)
    requires Private(p) && 1 <= p.lvl && i < ENTRIES
    ensures Private(Below(p, i))
  {
    assert (p.pre * ENTRIES + i) / ENTRIES == p.pre;
  }

  lemma BranchInside(place: map<nat, Place>, p: Place, i: nat)
    requires p.lvl >= 1 && i < ENTRIES
    ensures Subtree(place, Below(p, i)) <= Subtree(place, p)
  {
    forall q | q in Subtree(place, Below(p, i)) ensures q in Subtree(place, p) {
      UpStep(place[q].pre, p.lvl - 1 - place[q].lvl);
      assert (p.pre * ENTRIES + i) / ENTRIES == p.pre;
    }
  }

  lemma Branch(m: Memory, place: map<nat, Place>, pml4: nat, t: nat, i: nat, lvl: nat, before: Memory)
    requires ReadyToFree(m, place, pml4, before, t, lvl) && lvl >= 1 && i < ENTRIES
    ensures FirstBranches(place, place[t], i + 1) ==
              FirstBranches(place, place[t], i) + (if Present(At(m, t, i)) then Subtree(place, Below(place[t], i)) else {})
  {
    NextBranch(m, place, pml4, t, i);
  }

  lemma Whole(m: Memory, place: map<nat, Place>, pml4: nat, before: Memory, t: nat, lvl: nat)
    requires ReadyToFree(m, place, pml4, before, t, lvl) && lvl >= 1
    ensures Subtree(place, place[t]) == {t} + FirstBranches(place, place[t], ENTRIES)
    ensures t in before && t !in FirstBranches(place, place[t], ENTRIES) && IsPage(t)
  {
    AllBranches(m, place, pml4, t);
    assert PageOk(m, place, t) && t in Subtree(place, place[t]);
    hide TreeOk;
  }

  // ----- the frames given back, in order

  /** The frames below the entries of table `t` from the `i`th on, as the loops come to them. */
  function FramesFrom(m: Memory, t: nat, lvl: nat, i: nat): seq<nat>
    requires lvl >= 1 && i <= ENTRIES
    decreases lvl, ENTRIES - i
  {
    if i == ENTRIES then [] else FramesAt(m, t, lvl, i) + FramesFrom(m, t, lvl, i + 1)
  }

  function FramesAt(m: Memory, t: nat, lvl: nat, i: nat): seq<nat>
    requires lvl >= 1 && i < ENTRIES
    decreases lvl, 0
  {
    var e := At(m, t, i);
    if !Present(e) then [] else if lvl == 1 then [Target(e)] else FramesFrom(m, Target(e), lvl - 1, 0)
  }

  lemma FramesOn(m: Memory, t: nat, lvl: nat, i: nat, frames: seq<nat>)
    requires lvl >= 1 && i < ENTRIES && frames + FramesFrom(m, t, lvl, i) == FramesFrom(m, t, lvl, 0)
    ensures frames + FramesAt(m, t, lvl, i) + FramesFrom(m, t, lvl, i + 1) == FramesFrom(m, t, lvl, 0)
    ensures !Present(At(m, t, i)) ==> FramesAt(m, t, lvl, i) == [] && frames + FramesAt(m, t, lvl, i) == frames
    ensures Present(At(m, t, i)) ==>
              FramesAt(m, t, lvl, i) == if lvl == 1 then [Target(At(m, t, i))] else FramesFrom(m, Target(At(m, t, i)), lvl - 1, 0)
  {
    assert FramesFrom(m, t, lvl, i) == FramesAt(m, t, lvl, i) + FramesFrom(m, t, lvl, i + 1);
    hide FramesFrom;
    assert frames + (FramesAt(m, t, lvl, i) + FramesFrom(m, t, lvl, i + 1)) == frames + FramesAt(m, t, lvl, i) + FramesFrom(m, t, lvl, i + 1);
  }

  lemma FramesBegin(m: Memory, t: nat, lvl: nat)
    requires lvl >= 1
    ensures [] + FramesFrom(m, t, lvl, 0) == FramesFrom(m, t, lvl, 0)
    ensures FramesFrom(m, t, lvl, ENTRIES) == [] && forall s: seq<nat> :: s + FramesFrom(m, t, lvl, ENTRIES) == s
  {
    hide FramesAt;
  }

  /** `pt_destroy` frees the frames of a table and the table. */
  method PtDestroy(c: Machine, pt: nat, ghost m: Memory, ghost place: map<nat, Place>, ghost pml4: nat) returns (ghost frames: seq<nat>)
    requires ReadyToFree(m, place, pml4, c.mem, pt, 1) && MemOk(c.mem, c.free)
    modifies c
    ensures c.mem == old(c.mem) - Subtree(place, place[pt]) && c.free == old(c.free) + Subtree(place, place[pt])
    ensures MemOk(c.mem, c.free) && frames == FramesFrom(m, pt, 1, 0)
  {
    hide FramesFrom, FramesAt;
    FramesBegin(m, pt, 1);
    NoBranches(place, place[pt]);
    var i := 0;
    frames := [];
    while i < ENTRIES
      invariant i <= ENTRIES && MemOk(c.mem, c.free)
      invariant frames + FramesFrom(m, pt, 1, i) == FramesFrom(m, pt, 1, 0)
      invariant c.mem == old(c.mem) - FirstBranches(place, place[pt], i)
      invariant c.free == old(c.free) + FirstBranches(place, place[pt], i)
    {
      hide FirstBranches, Subtree, ReadyToFree, MemOk, TreeOk;
      FramesOn(m, pt, 1, i, frames);
      BranchReady(m, place, pml4, old(c.mem), c.mem, pt, i, 1);
      Branch(m, place, pml4, pt, i, 1, old(c.mem));
      if Present(c.mem[pt][i]) {
        FrameAlone(m, place, pml4, Target(c.mem[pt][i]));
        frames := frames + [Target(c.mem[pt][i])];
        c.PallocFreePage(Target(c.mem[pt][i]));
      }
      i := i + 1;
    }
    Whole(m, place, pml4, old(c.mem), pt, 1);
    hide FirstBranches, Subtree, ReadyToFree, MemOk, TreeOk;
    c.PallocFreePage(pt);
  }

  /** `pgdir_destroy`. */
  method PgdirDestroy(c: Machine, pdp: nat, ghost m: Memory, ghost place: map<nat, Place>, ghost pml4: nat) returns (ghost frames: seq<nat>)
    requires ReadyToFree(m, place, pml4, c.mem, pdp, 2) && MemOk(c.mem, c.free)
    modifies c
    ensures c.mem == old(c.mem) - Subtree(place, place[pdp]) && c.free == old(c.free) + Subtree(place, place[pdp])
    ensures MemOk(c.mem, c.free) && frames == FramesFrom(m, pdp, 2, 0)
  {
    hide FramesFrom, FramesAt;
    FramesBegin(m, pdp, 2);
    NoBranches(place, place[pdp]);
    var i := 0;
    frames := [];
    while i < ENTRIES
      invariant i <= ENTRIES && MemOk(c.mem, c.free)
      invariant frames + FramesFrom(m, pdp, 2, i) == FramesFrom(m, pdp, 2, 0)
      invariant c.mem == old(c.mem) - FirstBranches(place, place[pdp], i)
      invariant c.free == old(c.free) + FirstBranches(place, place[pdp], i)
    {
      hide FirstBranches, Subtree, ReadyToFree, MemOk, TreeOk;
      FramesOn(m, pdp, 2, i, frames);
      BranchReady(m, place, pml4, old(c.mem), c.mem, pdp, i, 2);
      Branch(m, place, pml4, pdp, i, 2, old(c.mem));
      if Present(c.mem[pdp][i]) {
        ghost var below := PtDestroy(c, Target(c.mem[pdp][i]), m, place, pml4);
        frames := frames + below;
      }
      i := i + 1;
    }
    Whole(m, place, pml4, old(c.mem), pdp, 2);
    hide FirstBranches, Subtree, ReadyToFree, MemOk, TreeOk;
    c.PallocFreePage(pdp);
  }

  /** `pdpe_destroy`. */
  method PdpeDestroy(c: Machine, pdpe: nat, ghost m: Memory, ghost place: map<nat, Place>, ghost pml4: nat) returns (ghost frames: seq<nat>)
    requires ReadyToFree(m, place, pml4, c.mem, pdpe, 3) && MemOk(c.mem, c.free)
    modifies c
    ensures c.mem == old(c.mem) - Subtree(place, place[pdpe]) && c.free == old(c.free) + Subtree(place, place[pdpe])
    ensures MemOk(c.mem, c.free) && frames == FramesFrom(m, pdpe, 3, 0)
  {
    hide FramesFrom, FramesAt;
    FramesBegin(m, pdpe, 3);
    NoBranches(place, place[pdpe]);
    var i := 0;
    frames := [];
    while i < ENTRIES
      invariant i <= ENTRIES && MemOk(c.mem, c.free)
      invariant frames + FramesFrom(m, pdpe, 3, i) == FramesFrom(m, pdpe, 3, 0)
      invariant c.mem == old(c.mem) - FirstBranches(place, place[pdpe], i)
      invariant c.free == old(c.free) + FirstBranches(place, place[pdpe], i)
    {
      hide FirstBranches, Subtree, ReadyToFree, MemOk, TreeOk;
      FramesOn(m, pdpe, 3, i, frames);
      BranchReady(m, place, pml4, old(c.mem), c.mem, pdpe, i, 3);
      Branch(m, place, pml4, pdpe, i, 3, old(c.mem));
      if Present(c.mem[pdpe][i]) {
        ghost var below := PgdirDestroy(c, Target(c.mem[pdpe][i]), m, place, pml4);
        frames := frames + below;
      }
      i := i + 1;
    }
    Whole(m, place, pml4, old(c.mem), pdpe, 3);
    hide FirstBranches, Subtree, ReadyToFree, MemOk, TreeOk;
    c.PallocFreePage(pdpe);
  }

  /** `pml4_destroy` frees the root and, once each, every private table and every frame present in the
      private part, these in order of their pages; every page that is not private, and in particular every
      table of the kernel, stays. */
  method Pml4Destroy(c: Machine, pml4: nat, ghost place: map<nat, Place>) returns (ghost frames: seq<nat>)
    requires c.Ready(place, pml4)
    modifies c
    ensures c.mem == old(c.mem) - Freed(place, pml4) && c.free == old(c.free) + Freed(place, pml4)
    ensures MemOk(c.mem, c.free) && frames == FramesAt(old(c.mem), pml4, ROOT_LEVEL, 0)
  {
    ghost var m := c.mem;
    DestroyPlan(m, place, pml4);
    hide TreeOk, Subtree, MemOk, ReadyToFree, Freed, FramesFrom;
    frames := [];
    if Present(c.mem[pml4][0]) {
      frames := PdpeDestroy(c, Target(c.mem[pml4][0]), m, place, pml4);
    }
    c.PallocFreePage(pml4);
  }

  ghost function Freed(place: map<nat, Place>, pml4: nat): set<nat> {
    set q | q in place && (q == pml4 || Private(place[q]))
  }

  lemma DestroyPlan(m: Memory, place: map<nat, Place>, pml4: nat)
    requires TreeOk(m, place, pml4)
    ensures pml4 in m && IsPage(pml4) && |m[pml4]| == ENTRIES
    ensures Present(m[pml4][0]) ==>
              var t := Target(m[pml4][0]);
              t in place && ReadyToFree(m, place, pml4, m, t, 3) && Freed(place, pml4) == {pml4} + Subtree(place, place[t])
              && pml4 !in Subtree(place, place[t])
    ensures !Present(m[pml4][0]) ==> Freed(place, pml4) == {pml4}
  {
    assert PageOk(m, place, pml4) && EntryOk(m, place, pml4, 0);
    assert Below(place[pml4], 0) == Place(3, 0);
    assert Up(0, 0) == 0;
    forall q | q in place && Private(place[q]) ensures InSubtree(place[q], Place(3, 0)) && Present(m[pml4][0]) {
      BranchIsPresent(m, place, pml4, pml4, 0, q);
    }
    assert forall q :: q in place && InSubtree(place[q], Place(3, 0)) ==> Private(place[q]);
    forall q | q in place ensures q in m { assert PageOk(m, place, q); }
  }
}
