/** Four-level page tables of section 4.5 of volume 3A of the Intel SDM, as threads/pte.h encodes them: a
    table is a page of 512 words, and a word holds the physical address of a page and flag bits.

    Pages are named by their kernel virtual address. A page number is a virtual address without its low
    12 bits. */
module PageTables {

  const KERN_BASE := 0x8004000000
  const PGSIZE := 4096
  const ENTRIES := 512
  const ROOT_LEVEL := 4

  type Memory = map<nat, seq<nat>>

  // ----- entries

  ghost predicate IsPage(kva: nat) {
    kva >= KERN_BASE && kva % PGSIZE == 0
  }

  function Ptov(paddr: nat): nat {
    paddr + KERN_BASE
  }

  function Vtop(kva: nat): nat
    requires kva >= KERN_BASE
  {
    kva - KERN_BASE
  }

  function PteAddr(e: nat): nat {
    e - e % PGSIZE
  }

  /** Bits 0, 1 and 2. */
  predicate Present(e: nat) {
    e % 2 == 1
  }

  predicate Writable(e: nat) {
    e / 2 % 2 == 1
  }

  predicate UserBit(e: nat) {
    e / 4 % 2 == 1
  }

  function Target(e: nat): nat {
    Ptov(PteAddr(e))
  }

  /** An entry for a page: its physical address, with the bits for present, user, and perhaps writable. */
  function Entry(kva: nat, rw: bool): nat
    requires kva >= KERN_BASE
  {
    Vtop(kva) + 1 + (if rw then 2 else 0) + 4
  }

  lemma Odd(a: nat)
    ensures (2 * a + 1) % 2 == 1 && (2 * a + 1) / 2 == a
  {
  }

  lemma Even(a: nat)
    ensures 2 * a % 2 == 0
  {
  }

  lemma Quarter(a: nat, r: nat)
    requires r < 4
    ensures (4 * a + r) / 4 == a
  {
  }

  lemma LowPart(q: nat, r: nat)
    requires r == 5 || r == 7
    ensures var e := 4096 * q + r; Present(e) && UserBit(e) && PteAddr(e) == 4096 * q && (Writable(e) <==> r == 7)
  {
    Quotient(q, r);
    Odd(2048 * q + r / 2);
    Quarter(1024 * q + 1, r - 4);
    Odd(512 * q);
    if r == 7 { Odd(1024 * q + 1); } else { Even(1024 * q + 1); }
  }

  lemma NeitherBit(q: nat, r: nat)
    requires r < 32
    ensures !Bit(4096 * q + r, PTE_A) && !Bit(4096 * q + r, PTE_D)
  {
    assert (4096 * q + r) / 32 == 128 * q && (4096 * q + r) / 64 == 64 * q;
    Even(64 * q);
    Even(32 * q);
  }

  lemma EntryFacts(kva: nat, rw: bool)
    requires IsPage(kva)
    ensures var e := Entry(kva, rw); Present(e) && UserBit(e) && Target(e) == kva && (Writable(e) <==> rw)
    ensures !Bit(Entry(kva, rw), PTE_A) && !Bit(Entry(kva, rw), PTE_D)
  {
    NeitherBit(kva / 4096 - 0x8004000, if rw then 7 else 5);
    assert KERN_BASE == 4096 * 0x8004000;
    var q := kva / 4096 - 0x8004000;
    assert Vtop(kva) == 4096 * q;
    LowPart(q, if rw then 7 else 5);
  }

  // ----- changing flag bits

  const PTE_P := 1
  const PTE_A := 0x20
  const PTE_D := 0x40

  predicate Bit(e: nat, b: nat)
    requires b > 0
  {
    e / b % 2 == 1
  }

  function WithBit(e: nat, b: nat): nat
    requires b > 0
  {
    if Bit(e, b) then e else e + b
  }

  function WithoutBit(e: nat, b: nat): nat
    requires b > 0
  {
    if Bit(e, b) then e - b else e
  }

  /** The complement of a 32-bit constant clears the upper half of the entry as well. */
  function ClearedNarrow(e: nat, b: nat): nat
    requires b > 0
  {
    WithoutBit(e % 0x1_0000_0000, b)
  }

  lemma AbsentAfterClear(e: nat)
    requires Present(e)
    ensures !Present(WithoutBit(e, PTE_P)) && Target(WithoutBit(e, PTE_P)) == Target(e)
  {
    var q, r := e / 4096, e % 4096;
    assert e - 1 == 4096 * q + (r - 1);
  }

  /** Setting the accessed or the dirty bit leaves frame and permissions. */
  lemma WithBitKeeps(e: nat, b: nat)
    requires b == PTE_A || b == PTE_D
    ensures Bit(WithBit(e, b), b) && SameMapping(e, WithBit(e, b))
  {
    SplitAt(e, b);
  }

  lemma WithoutBitKeeps(e: nat, b: nat)
    requires b == PTE_A || b == PTE_D
    ensures !Bit(WithoutBit(e, b), b) && SameMapping(e, WithoutBit(e, b))
  {
    SplitAt(e, b);
  }

  ghost predicate SameMapping(e: nat, e': nat) {
    Present(e') == Present(e) && Writable(e') == Writable(e) && UserBit(e') == UserBit(e) && PteAddr(e') == PteAddr(e)
  }

  lemma SplitAt(e: nat, b: nat)
    requires b == PTE_A || b == PTE_D
    ensures !Bit(e, b) ==> Bit(e + b, b) && SameMapping(e, e + b)
    ensures Bit(e, b) ==> e >= b && !Bit(e - b, b) && SameMapping(e, e - b)
  {
    if b == PTE_A {
      if Bit(e, b) { RaiseA(e - 32); LowBits(e - 32, 4); } else { RaiseA(e); LowBits(e, 4); }
    } else {
      if Bit(e, b) { RaiseD(e - 64); LowBits(e - 64, 8); } else { RaiseD(e); LowBits(e, 8); }
    }
  }

  lemma LowBits(e: nat, j: nat)
    ensures Present(e + 8 * j) == Present(e) && Writable(e + 8 * j) == Writable(e) && UserBit(e + 8 * j) == UserBit(e)
  {
    assert (e + 8 * j) / 2 == e / 2 + 4 * j;
    assert (e + 8 * j) / 4 == e / 4 + 2 * j;
  }

  lemma RaiseA(e: nat)
    ensures Bit(e, 32) <==> !Bit(e + 32, 32)
    ensures !Bit(e, 32) ==> PteAddr(e + 32) == PteAddr(e)
  {
    assert (e + 32) / 32 == e / 32 + 1;
    var q, r := e / 64, e % 64;
    SixtyFourths(q, r);
    assert e / 32 == 2 * q + r / 32;
    if r < 32 { SixtyFourths(q, r + 32); }
  }

  lemma RaiseD(e: nat)
    ensures Bit(e, 64) <==> !Bit(e + 64, 64)
    ensures !Bit(e, 64) ==> PteAddr(e + 64) == PteAddr(e)
  {
    var q, r := e / 64, e % 64;
    assert e == 64 * q + r && e + 64 == 64 * (q + 1) + r;
    hide Bit, PteAddr;
    BitOf(q, r);
    BitOf(q + 1, r);
    Parity(q);
    if q % 2 == 0 {
      EvenNext(q);
      SixtyFourths(q, r);
      SixtyFourths(q + 1, r);
    }
  }

  lemma BitOf(q: nat, r: nat)
    requires r < 64
    ensures Bit(64 * q + r, 64) <==> q % 2 == 1
  {
    assert (64 * q + r) / 64 == q;
  }

  lemma Parity(q: nat)
    ensures q % 2 == 1 <==> (q + 1) % 2 != 1
  {
  }

  lemma EvenNext(q: nat)
    requires q % 2 == 0
    ensures (q + 1) / 64 == q / 64
  {
  }

  lemma SixtyFourths(q: nat, r: nat)
    requires r < 64
    ensures PteAddr(64 * q + r) == 4096 * (q / 64)
  {
    var h, l := q / 64, q % 64;
    assert q == 64 * h + l;
    assert 64 * q + r == 4096 * h + (64 * l + r);
    assert 64 * l + r < 4096;
    Quotient(h, 64 * l + r);
  }

  lemma Quotient(h: nat, l: nat)
    requires l < 4096
    ensures (4096 * h + l) % 4096 == l
  {
  }

  /** Clearing the accessed or the dirty bit keeps the mapping if and only if the frame lies below 4 GiB. */
  lemma ClearNarrowKeeps(e: nat, b: nat)
    requires b == PTE_A || b == PTE_D
    ensures SameMapping(e, ClearedNarrow(e, b)) <==> PteAddr(e) < 0x1_0000_0000
    ensures !Bit(ClearedNarrow(e, b), b)
  {
    WithoutBitKeeps(e % 0x1_0000_0000, b);
    NarrowAddress(e);
  }

  lemma NarrowAddress(e: nat)
    ensures PteAddr(e % 0x1_0000_0000) == PteAddr(e) <==> PteAddr(e) < 0x1_0000_0000
    ensures Present(e % 0x1_0000_0000) == Present(e) && Writable(e % 0x1_0000_0000) == Writable(e) && UserBit(e % 0x1_0000_0000) == UserBit(e)
  {
    var h, l := e / 0x1_0000_0000, e % 0x1_0000_0000;
    assert e == l + 8 * (0x2000_0000 * h);
    LowBits(l, 0x2000_0000 * h);
    NarrowRemainder(h, l);
  }

  lemma NarrowRemainder(h: nat, l: nat)
    requires l < 0x1_0000_0000
    ensures PteAddr(0x1_0000_0000 * h + l) == 0x1_0000_0000 * h + PteAddr(l)
  {
    var q, r := l / 4096, l % 4096;
    assert 0x1_0000_0000 * h + l == 4096 * (0x10_0000 * h + q) + r;
    Quotient(0x10_0000 * h + q, r);
    Quotient(q, r);
  }

  function OtherFlag(b: nat): nat {
    if b == PTE_A then PTE_D else PTE_A
  }

  /** Setting or clearing one of the two flags leaves the other. */
  lemma OtherFlagKept(e: nat, b: nat)
    requires b == PTE_A || b == PTE_D
    ensures Bit(WithBit(e, b), OtherFlag(b)) == Bit(e, OtherFlag(b)) == Bit(ClearedNarrow(e, b), OtherFlag(b))
  {
    var l := e % 0x1_0000_0000;
    NarrowFlags(e);
    hide Bit;
    if b == PTE_A {
      if !Bit(e, b) { RaiseKeepsD(e); }
      if Bit(l, b) { LowerKeepsD(l); }
    } else {
      if !Bit(e, b) { Shift32(e, 1); }
      if Bit(l, b) { AtLeast64(l); Shift32(l - 64, 1); }
    }
  }

  lemma NarrowFlags(e: nat)
    ensures Bit(e % 0x1_0000_0000, 32) == Bit(e, 32) && Bit(e % 0x1_0000_0000, 64) == Bit(e, 64)
  {
    var h, l := e / 0x1_0000_0000, e % 0x1_0000_0000;
    Shift32(l, 0x400_0000 * h);
    Shift64(l, 0x200_0000 * h);
    hide Bit;
    assert e == l + 64 * (0x400_0000 * h) == l + 128 * (0x200_0000 * h);
  }

  lemma Shift32(e: nat, k: nat)
    ensures Bit(e + 64 * k, 32) == Bit(e, 32)
  {
    assert (e + 64 * k) / 32 == e / 32 + 2 * k;
  }

  lemma Shift64(e: nat, k: nat)
    ensures Bit(e + 128 * k, 64) == Bit(e, 64)
  {
    assert (e + 128 * k) / 64 == e / 64 + 2 * k;
  }

  lemma AtLeast64(e: nat)
    requires Bit(e, 64)
    ensures e >= 64
  {
  }

  lemma RaiseKeepsD(e: nat)
    requires !Bit(e, 32)
    ensures Bit(e + 32, 64) == Bit(e, 64)
  {
    var q, r := e / 64, e % 64;
    assert e / 32 == 2 * q + r / 32;
    assert r < 32;
    assert (e + 32) / 64 == q;
  }

  lemma LowerKeepsD(e: nat)
    requires Bit(e, 32)
    ensures e >= 32 && Bit(e - 32, 64) == Bit(e, 64)
  {
    var q, r := e / 64, e % 64;
    assert e / 32 == 2 * q + r / 32;
    assert r >= 32;
    assert (e - 32) / 64 == q;
  }

  // ----- page numbers

  /** What `k` levels of tables leave of a page number. */
  function Up(n: nat, k: nat): nat {
    if k == 0 then n else Up(n / ENTRIES, k - 1)
  }

  lemma {:induction false} UpStep(n: nat, k: nat)
    ensures Up(n, k + 1) == Up(n, k) / ENTRIES
  {
    if k > 0 { UpStep(n / ENTRIES, k - 1); }
  }

  lemma {:induction false} UpUp(n: nat, j: nat, k: nat)
    ensures Up(Up(n, j), k) == Up(n, j + k)
  {
    if j > 0 { UpUp(n / ENTRIES, j - 1, k); }
  }

  /** The index into the table of level `lvl` on the way to page `vpn`. */
  function Idx(vpn: nat, lvl: nat): nat {
    if lvl == 0 then 0 else Up(vpn, lvl - 1) % ENTRIES
  }

  /** These are the 9-bit fields at bits 39, 30, 21 and 12 of the virtual address. */
  lemma IndexBits(va: nat)
    ensures Idx(va / PGSIZE, 4) == va / 0x8000000000 % 512
    ensures Idx(va / PGSIZE, 3) == va / 0x40000000 % 512
    ensures Idx(va / PGSIZE, 2) == va / 0x200000 % 512
    ensures Idx(va / PGSIZE, 1) == va / 0x1000 % 512
  {
    var n := va / PGSIZE;
    assert Up(n, 0) == n;
    UpStep(n, 0);
    UpStep(n, 1);
    UpStep(n, 2);
    hide Up;
    DivDiv1(va);
    DivDiv2(va);
    DivDiv3(va);
  }

  lemma DivDiv1(va: nat)
    ensures va / 0x1000 / 512 == va / 0x200000
  {
  }

  lemma DivDiv2(va: nat)
    ensures va / 0x200000 / 512 == va / 0x40000000
  {
  }

  lemma DivDiv3(va: nat)
    ensures va / 0x40000000 / 512 == va / 0x8000000000
  {
  }

  lemma SplitNumber(vpn: nat, lvl: nat)
    requires lvl > 0
    ensures Up(vpn, lvl - 1) == Up(vpn, lvl) * ENTRIES + Idx(vpn, lvl)
  {
    UpStep(vpn, lvl - 1);
  }

  // ----- the walk

  function At(m: Memory, t: nat, i: nat): nat {
    if t in m && i < |m[t]| then m[t][i] else 0
  }

  /** The page table entry for `vpn`, found from table `t` of level `lvl`; 0 when a table is missing. */
  function PteFrom(m: Memory, t: nat, vpn: nat, lvl: nat): nat
    decreases lvl
  {
    var e := At(m, t, Idx(vpn, lvl));
    if lvl <= 1 then e
    else if Present(e) then PteFrom(m, Target(e), vpn, lvl - 1)
    else 0
  }

  function Pte(m: Memory, pml4: nat, vpn: nat): nat {
    PteFrom(m, pml4, vpn, ROOT_LEVEL)
  }

  datatype Option<+T> = None | Some(value: T)

  datatype Mapping = Mapping(frame: nat, writable: bool)

  /** The finite map that the tables stand for. */
  function Translation(m: Memory, pml4: nat, vpn: nat): Option<Mapping> {
    var e := Pte(m, pml4, vpn);
    if Present(e) then Some(Mapping(Target(e), Writable(e))) else None
  }

  // ----- well-formed trees

  /** Where a page stands in the tree: its level, and the part of the page number that leads to it. */
  datatype Place = Place(lvl: nat, pre: nat)

  /** The part of the tree below entry 0 of the root belongs to one process; the rest is the kernel's. */
  ghost predicate Private(p: Place) {
    p.lvl < ROOT_LEVEL && Up(p.pre, ROOT_LEVEL - 1 - p.lvl) == 0
  }

  ghost predicate IsTable(m: Memory, place: map<nat, Place>, t: nat) {
    t in place && t in m && |m[t]| == ENTRIES && 1 <= place[t].lvl <= ROOT_LEVEL
  }

  /** Where entry `i` of a table at `p` leads. */
  function Below(p: Place, i: nat): Place {
    Place(if p.lvl > 0 then p.lvl - 1 else 0, p.pre * ENTRIES + i)
  }

  /** A present entry leads to a page that stands one level down, at that entry's place; in the kernel's
      part this is not so for the frames. Above the lowest level an entry grants everything, or is 0. */
  ghost predicate EntryOk(m: Memory, place: map<nat, Place>, t: nat, i: nat)
    requires t in place
  {
    var e, down := At(m, t, i), Below(place[t], i);
    && (Present(e) && (place[t].lvl >= 2 || Private(down)) ==> Target(e) in place && place[Target(e)] == down)
    && (place[t].lvl >= 2 ==> if Present(e) then Writable(e) && UserBit(e) else e == 0)
  }

  /** `t` is what the entry of its parent leads to. */
  ghost predicate HasParent(m: Memory, place: map<nat, Place>, t: nat, p: nat)
    requires t in place
  {
    && IsTable(m, place, p) && place[p] == Place(place[t].lvl + 1, place[t].pre / ENTRIES)
    && Present(At(m, p, place[t].pre % ENTRIES)) && Target(At(m, p, place[t].pre % ENTRIES)) == t
  }

  ghost predicate PageOk(m: Memory, place: map<nat, Place>, t: nat)
    requires t in place
  {
    && IsPage(t) && t in m && (place[t].lvl > 0 ==> IsTable(m, place, t))
    && (place[t].lvl == 0 ==> Private(place[t]))
    && (place[t].lvl < ROOT_LEVEL ==> exists p :: HasParent(m, place, t, p))
  }

  /** The tables form a tree: `place` gives each table, and each frame of the private part, exactly one
      place, and exactly what the entries of the tables lead to is there. */
  ghost predicate TreeOk(m: Memory, place: map<nat, Place>, pml4: nat) {
    && pml4 in place && (forall t :: t in place ==> (place[t] == Place(ROOT_LEVEL, 0) <==> t == pml4))
    && (forall t :: t in place ==> place[t].lvl <= ROOT_LEVEL && (place[t].lvl == ROOT_LEVEL ==> t == pml4))
    && (forall t {:trigger PageOk(m, place, t)} :: t in place ==> PageOk(m, place, t))
    && (forall t, i: nat {:trigger EntryOk(m, place, t, i)} :: t in place && place[t].lvl >= 1 && i < ENTRIES ==> EntryOk(m, place, t, i))
  }

  // ----- what the tree says about walks

  /** No two pages stand at the same place. */
  lemma {:induction false} PlaceUnique(m: Memory, place: map<nat, Place>, pml4: nat, t: nat, u: nat)
    requires TreeOk(m, place, pml4) && t in place && u in place && place[t] == place[u]
    ensures t == u
    decreases ROOT_LEVEL - place[t].lvl
  {
    if place[t].lvl < ROOT_LEVEL {
      assert PageOk(m, place, t) && PageOk(m, place, u);
      var p :| HasParent(m, place, t, p);
      var q :| HasParent(m, place, u, q);
      PlaceUnique(m, place, pml4, p, q);
    }
  }

  /** `t` is the table of level `lvl` on the way to page `vpn`. */
  ghost predicate OnPath(place: map<nat, Place>, t: nat, vpn: nat, lvl: nat) {
    t in place && place[t] == Place(lvl, Up(vpn, lvl))
  }

  lemma StepDown(m: Memory, place: map<nat, Place>, pml4: nat, t: nat, vpn: nat, lvl: nat)
    requires TreeOk(m, place, pml4) && OnPath(place, t, vpn, lvl) && lvl >= 2 && Present(At(m, t, Idx(vpn, lvl)))
    ensures OnPath(place, Target(At(m, t, Idx(vpn, lvl))), vpn, lvl - 1)
  {
    SplitNumber(vpn, lvl);
    assert EntryOk(m, place, t, Idx(vpn, lvl));
    hide Up;
  }

  /** Memories that agree on the entries on the way to `vpn` agree on its translation. */
  ghost predicate SameOnPath(m: Memory, m': Memory, place: map<nat, Place>, vpn: nat) {
    forall t {:trigger OnPath(place, t, vpn, place[t].lvl)} :: t in place && place[t].lvl >= 1 && OnPath(place, t, vpn, place[t].lvl) ==>
      At(m', t, Idx(vpn, place[t].lvl)) == At(m, t, Idx(vpn, place[t].lvl))
  }

  lemma {:induction false} SameWalk(m: Memory, m': Memory, place: map<nat, Place>, pml4: nat, t: nat, vpn: nat, lvl: nat)
    requires TreeOk(m, place, pml4) && OnPath(place, t, vpn, lvl) && lvl >= 1 && SameOnPath(m, m', place, vpn)
    ensures PteFrom(m', t, vpn, lvl) == PteFrom(m, t, vpn, lvl)
    decreases lvl
  {
    assert OnPath(place, t, vpn, place[t].lvl);
    if lvl >= 2 && Present(At(m, t, Idx(vpn, lvl))) {
      StepDown(m, place, pml4, t, vpn, lvl);
      SameWalk(m, m', place, pml4, Target(At(m, t, Idx(vpn, lvl))), vpn, lvl - 1);
    }
  }

  /** The root is on the way to every page of the 48-bit address space. */
  ghost predicate IsVpn(vpn: nat) {
    Up(vpn, ROOT_LEVEL) == 0
  }

  /** Every table on the way to a page leads to the same entry as the root. */
  lemma {:induction false} PathIsUnique(m: Memory, place: map<nat, Place>, pml4: nat, t: nat, vpn: nat, lvl: nat)
    requires TreeOk(m, place, pml4) && OnPath(place, t, vpn, lvl) && 1 <= lvl && IsVpn(vpn)
    ensures PteFrom(m, t, vpn, lvl) == Pte(m, pml4, vpn)
    decreases ROOT_LEVEL - lvl
  {
    assert PageOk(m, place, t);
    if lvl < ROOT_LEVEL {
      var p :| HasParent(m, place, t, p);
      UpStep(vpn, lvl);
      PathIsUnique(m, place, pml4, p, vpn, lvl + 1);
    }
  }

  // ----- rights

  /** The processor lets a user program read, or write, a page when every entry of the walk does. */
  predicate Allows(m: Memory, t: nat, vpn: nat, lvl: nat, write: bool)
    decreases lvl
  {
    var e := At(m, t, Idx(vpn, lvl));
    Grants(e, write) && (lvl > 1 ==> Allows(m, Target(e), vpn, lvl - 1, write))
  }

  predicate Grants(e: nat, write: bool) {
    Present(e) && UserBit(e) && (write ==> Writable(e))
  }

  /** The entry of the lowest level alone decides what a user program may do, as no entry above takes rights
      away; and so it is after entries of the lowest level have changed. */
  lemma {:induction false} LowestDecides(m: Memory, m': Memory, place: map<nat, Place>, pml4: nat, t: nat, vpn: nat, lvl: nat, write: bool)
    requires TreeOk(m, place, pml4) && OnPath(place, t, vpn, lvl) && 1 <= lvl && IsVpn(vpn)
    requires forall u :: u in place && place[u].lvl >= 2 && u in m ==> u in m' && m'[u] == m[u]
    ensures Allows(m', t, vpn, lvl, write) <==> Grants(PteFrom(m', t, vpn, lvl), write)
    decreases lvl
  {
    if lvl > 1 {
      assert PageOk(m, place, t) && EntryOk(m, place, t, Idx(vpn, lvl));
      var e := At(m, t, Idx(vpn, lvl));
      if Present(e) {
        StepDown(m, place, pml4, t, vpn, lvl);
        LowestDecides(m, m', place, pml4, Target(e), vpn, lvl - 1, write);
      }
    }
  }

  // ----- adding a table

  function Zeros(): (s: seq<nat>)
    ensures |s| == ENTRIES && forall i :: 0 <= i < ENTRIES ==> s[i] == 0
  {
    seq(ENTRIES, _ => 0)
  }

  /** A new empty table `page` is hung into entry `i` of `t`. */
  function Grown(m: Memory, t: nat, i: nat, page: nat): Memory
    requires t in m && i < |m[t]| && page >= KERN_BASE
  {
    var words: seq<nat> := m[t][i := Entry(page, true)];
    m[page := Zeros()][t := words]
  }

  ghost predicate CanGrow(m: Memory, place: map<nat, Place>, t: nat, i: nat, page: nat) {
    && IsTable(m, place, t) && place[t].lvl >= 2 && i < ENTRIES && !Present(At(m, t, i))
    && IsPage(page) && page !in m && page !in place
  }

  lemma GrowPages(m: Memory, place: map<nat, Place>, pml4: nat, t: nat, i: nat, page: nat)
    requires TreeOk(m, place, pml4) && CanGrow(m, place, t, i, page)
    ensures var m', place' := Grown(m, t, i, page), place[page := Below(place[t], i)];
            forall u :: u in place' ==> PageOk(m', place', u)
  {
    EntryFacts(page, true);
    var m', place' := Grown(m, t, i, page), place[page := Below(place[t], i)];
    hide Entry, Target, Present, IsPage;
    forall u | u in place' ensures PageOk(m', place', u) {
      if u == page {
        assert HasParent(m', place', u, t);
      } else {
        assert PageOk(m, place, u);
        if place[u].lvl < ROOT_LEVEL {
          var q :| HasParent(m, place, u, q);
          assert PageOk(m, place, q);
          assert HasParent(m', place', u, q);
        }
      }
    }
  }

  lemma GrowOk(m: Memory, place: map<nat, Place>, pml4: nat, t: nat, i: nat, page: nat)
    requires TreeOk(m, place, pml4) && CanGrow(m, place, t, i, page)
    ensures TreeOk(Grown(m, t, i, page), place[page := Below(place[t], i)], pml4)
  {
    GrowPages(m, place, pml4, t, i, page);
    EntryFacts(page, true);
    var m', place' := Grown(m, t, i, page), place[page := Below(place[t], i)];
    hide Entry, Target, IsPage, PageOk;
    forall u, j: nat | u in place' && place'[u].lvl >= 1 && j < ENTRIES ensures EntryOk(m', place', u, j) {
      if u != page {
        assert EntryOk(m, place, u, j);
      }
    }
  }

  /** An empty table adds no translation. */
  lemma {:induction false} GrowTranslates(m: Memory, place: map<nat, Place>, pml4: nat, t: nat, i: nat, page: nat, u: nat, vpn: nat, lvl: nat)
    requires TreeOk(m, place, pml4) && CanGrow(m, place, t, i, page) && OnPath(place, u, vpn, lvl) && lvl >= 1
    ensures PteFrom(Grown(m, t, i, page), u, vpn, lvl) == PteFrom(m, u, vpn, lvl)
    decreases lvl
  {
    EntryFacts(page, true);
    hide Entry, IsPage;
    var e := At(m, u, Idx(vpn, lvl));
    if u == t && Idx(vpn, lvl) == i {
      assert EntryOk(m, place, t, i);
      assert At(Grown(m, t, i, page), page, Idx(vpn, lvl - 1)) == 0;
    } else if lvl >= 2 && Present(e) {
      StepDown(m, place, pml4, u, vpn, lvl);
      GrowTranslates(m, place, pml4, t, i, page, Target(e), vpn, lvl - 1);
    }
  }

  // ----- writing an entry of the lowest level

  function Written(m: Memory, t: nat, i: nat, e: nat): Memory
    requires t in m && i < |m[t]|
  {
    var words: seq<nat> := m[t][i := e];
    m[t := words]
  }

  /** The frame of an entry leaves its place, and that of the new entry takes it, in the private part. */
  ghost function Replaced(place: map<nat, Place>, vpn: nat, old_e: nat, e: nat): map<nat, Place> {
    if !Private(Place(0, vpn)) then place
    else
      var without := if Present(old_e) then place - {Target(old_e)} else place;
      if Present(e) then without[Target(e) := Place(0, vpn)] else without
  }

  ghost predicate CanWrite(m: Memory, place: map<nat, Place>, t: nat, vpn: nat, e: nat) {
    && IsTable(m, place, t) && OnPath(place, t, vpn, 1)
    && (Present(e) && Private(Place(0, vpn)) ==>
          && IsPage(Target(e)) && Target(e) in m
          && (Target(e) in place ==> Present(At(m, t, Idx(vpn, 1))) && Target(e) == Target(At(m, t, Idx(vpn, 1)))))
  }

  /** Only the entry for `vpn` leads to the frame of `vpn`. */
  lemma OnlyThisEntry(m: Memory, place: map<nat, Place>, pml4: nat, t: nat, vpn: nat, u: nat, j: nat)
    requires TreeOk(m, place, pml4) && OnPath(place, t, vpn, 1) && u in place && place[u].lvl >= 1 && j < ENTRIES
    requires Below(place[u], j) == Place(0, vpn)
    ensures u == t && j == Idx(vpn, 1)
  {
    SplitNumber(vpn, 1);
    assert vpn == place[u].pre * ENTRIES + j;
    assert place[u].pre == vpn / ENTRIES && j == vpn % ENTRIES;
    assert Up(vpn, 1) == vpn / ENTRIES && Up(vpn, 0) == vpn;
    PlaceUnique(m, place, pml4, t, u);
  }

  lemma WriteEntries(m: Memory, place: map<nat, Place>, pml4: nat, t: nat, vpn: nat, e: nat)
    requires TreeOk(m, place, pml4) && CanWrite(m, place, t, vpn, e)
    ensures var m', place' := Written(m, t, Idx(vpn, 1), e), Replaced(place, vpn, At(m, t, Idx(vpn, 1)), e);
            forall u, j: nat :: u in place' && place'[u].lvl >= 1 && j < ENTRIES ==> EntryOk(m', place', u, j)
  {
    var i, old_e := Idx(vpn, 1), At(m, t, Idx(vpn, 1));
    var m', place' := Written(m, t, i, e), Replaced(place, vpn, old_e, e);
    SplitNumber(vpn, 1);
    assert Below(place[t], i) == Place(0, vpn);
    assert EntryOk(m, place, t, i);
    hide Up, Present, Target, IsPage, PageOk;
    forall u, j: nat | u in place' && place'[u].lvl >= 1 && j < ENTRIES ensures EntryOk(m', place', u, j) {
      assert u in place && place'[u] == place[u];
      assert EntryOk(m, place, u, j);
      if Below(place[u], j) == Place(0, vpn) { OnlyThisEntry(m, place, pml4, t, vpn, u, j); }
    }
  }

  /** Every table keeps its parent; the frame of `vpn` is the only page whose parent entry changes. */
  lemma WritePages(m: Memory, place: map<nat, Place>, pml4: nat, t: nat, vpn: nat, e: nat)
    requires TreeOk(m, place, pml4) && CanWrite(m, place, t, vpn, e)
    ensures var m', place' := Written(m, t, Idx(vpn, 1), e), Replaced(place, vpn, At(m, t, Idx(vpn, 1)), e);
            forall u :: u in place' ==> PageOk(m', place', u)
  {
    var i, old_e := Idx(vpn, 1), At(m, t, Idx(vpn, 1));
    var m', place' := Written(m, t, i, e), Replaced(place, vpn, old_e, e);
    SplitNumber(vpn, 1);
    assert Below(place[t], i) == Place(0, vpn);
    assert EntryOk(m, place, t, i) && PageOk(m, place, t);
    forall u | u in place' ensures PageOk(m', place', u) {
      if u in place && place'[u] == place[u] && place[u] != Place(0, vpn) {
        assert PageOk(m, place, u);
        if place[u].lvl < ROOT_LEVEL {
          var q :| HasParent(m, place, u, q);
          assert PageOk(m, place, q);
          SameParent(m, place, t, vpn, e, u, q);
          assert HasParent(m', place', u, q);
        }
      } else {
        FrameIsThere(m, place, pml4, t, vpn, e, u);
        assert HasParent(m', place', u, t);
      }
    }
  }

  lemma SameParent(m: Memory, place: map<nat, Place>, t: nat, vpn: nat, e: nat, u: nat, q: nat)
    requires CanWrite(m, place, t, vpn, e) && u in place && place[u] != Place(0, vpn) && HasParent(m, place, u, q)
    ensures At(Written(m, t, Idx(vpn, 1), e), q, place[u].pre % ENTRIES) == At(m, q, place[u].pre % ENTRIES)
  {
    SplitNumber(vpn, 1);
    var at, i := place[u], Idx(vpn, 1);
    assert at != Place(0, vpn);
    assert q != t || at.pre % ENTRIES != i;
  }

  lemma FrameIsThere(m: Memory, place: map<nat, Place>, pml4: nat, t: nat, vpn: nat, e: nat, u: nat)
    requires TreeOk(m, place, pml4) && CanWrite(m, place, t, vpn, e)
    requires var place' := Replaced(place, vpn, At(m, t, Idx(vpn, 1)), e);
             u in place' && !(u in place && place'[u] == place[u] && place[u] != Place(0, vpn))
    ensures Private(Place(0, vpn)) && Present(e) && u == Target(e)
  {
    if u in place && place[u] == Place(0, vpn) {
      assert PageOk(m, place, u);
      var q :| HasParent(m, place, u, q);
      SplitNumber(vpn, 1);
      assert place[q] == place[t];
      PlaceUnique(m, place, pml4, q, t);
    }
  }

  lemma WriteOk(m: Memory, place: map<nat, Place>, pml4: nat, t: nat, vpn: nat, e: nat)
    requires TreeOk(m, place, pml4) && CanWrite(m, place, t, vpn, e)
    ensures TreeOk(Written(m, t, Idx(vpn, 1), e), Replaced(place, vpn, At(m, t, Idx(vpn, 1)), e), pml4)
  {
    hide PageOk, EntryOk, Private, CanWrite, IsTable, Written, Replaced, Idx, Up, At, Target, Present;
    WritePages(m, place, pml4, t, vpn, e);
    WriteEntries(m, place, pml4, t, vpn, e);
    ReplacedShape(m, place, pml4, t, vpn, e);
  }

  lemma ReplacedShape(m: Memory, place: map<nat, Place>, pml4: nat, t: nat, vpn: nat, e: nat)
    requires TreeOk(m, place, pml4) && CanWrite(m, place, t, vpn, e)
    ensures var place' := Replaced(place, vpn, At(m, t, Idx(vpn, 1)), e);
            && pml4 in place' && place'[pml4] == place[pml4]
            && forall u :: u in place' && u != pml4 ==> (u in place && place'[u] == place[u]) || place'[u] == Place(0, vpn)
  {
    RootStays(m, place, pml4, t, vpn);
    hide PageOk, EntryOk, Private, Target, Present;
  }

  lemma RootStays(m: Memory, place: map<nat, Place>, pml4: nat, t: nat, vpn: nat)
    requires TreeOk(m, place, pml4) && OnPath(place, t, vpn, 1)
    ensures Present(At(m, t, Idx(vpn, 1))) && Private(Place(0, vpn)) ==>
              Target(At(m, t, Idx(vpn, 1))) in place && place[Target(At(m, t, Idx(vpn, 1)))] == Place(0, vpn)
  {
    SplitNumber(vpn, 1);
    assert EntryOk(m, place, t, Idx(vpn, 1));
  }

  /** Writing the entry for one page changes the translation of that page and of no other. */
  lemma WriteTranslates(m: Memory, place: map<nat, Place>, pml4: nat, t: nat, vpn: nat, e: nat, other: nat)
    requires TreeOk(m, place, pml4) && IsTable(m, place, t) && OnPath(place, t, vpn, 1) && IsVpn(vpn) && IsVpn(other)
    ensures Pte(Written(m, t, Idx(vpn, 1), e), pml4, other) == if other == vpn then e else Pte(m, pml4, other)
  {
    var m' := Written(m, t, Idx(vpn, 1), e);
    if other == vpn {
      PathStays(m, m', place, pml4, t, vpn, 1);
    } else {
      SameOnOtherPaths(m, place, pml4, t, vpn, e, other);
      SameWalk(m, m', place, pml4, pml4, other, ROOT_LEVEL);
    }
  }

  /** When only tables of the lowest level have changed, every table on the way to a page still leads to the
      same entry as the root. */
  lemma {:induction false} PathStays(m: Memory, m': Memory, place: map<nat, Place>, pml4: nat, t: nat, vpn: nat, lvl: nat)
    requires TreeOk(m, place, pml4) && OnPath(place, t, vpn, lvl) && 1 <= lvl && IsVpn(vpn)
    requires forall u :: u in place && place[u].lvl >= 2 && u in m ==> u in m' && m'[u] == m[u]
    ensures PteFrom(m', t, vpn, lvl) == Pte(m', pml4, vpn)
    decreases ROOT_LEVEL - lvl
  {
    assert PageOk(m, place, t);
    if lvl < ROOT_LEVEL {
      var p :| HasParent(m, place, t, p);
      UpStep(vpn, lvl);
      PathStays(m, m', place, pml4, p, vpn, lvl + 1);
    }
  }

  lemma SameOnOtherPaths(m: Memory, place: map<nat, Place>, pml4: nat, t: nat, vpn: nat, e: nat, other: nat)
    requires TreeOk(m, place, pml4) && IsTable(m, place, t) && OnPath(place, t, vpn, 1) && other != vpn
    ensures SameOnPath(m, Written(m, t, Idx(vpn, 1), e), place, other)
  {
    SplitNumber(vpn, 1);
    SplitNumber(other, 1);
    assert Up(vpn, 0) == vpn && Up(other, 0) == other;
  }
}
