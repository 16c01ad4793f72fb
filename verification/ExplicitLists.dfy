/** The one free list of the explicit allocator: doubly linked, last in first out, through 8-byte pointers. */
module ExplicitLists {
  import opened SegWords
  import opened SegLayout
  import opened SegLists

  /** `MIN_FREE_BLOCK_SIZE`: a header, two pointers and a footer. */
  const LEAST_BLOCK := 24

  const WORD := 0x1_0000_0000

  // ----- pointers

  /** A pointer takes two words. */
  function Ptr(m: Memory, p: int): int {
    Get(m, p) + WORD * Get(m, p + 4)
  }

  function PutPtr(m: Memory, p: int, v: int): (r: Memory)
    ensures |r| == |m|
  {
    Put(Put(m, p, v % WORD), p + 4, v / WORD)
  }

  lemma PutPtrEffect(m: Memory, p: int, v: int)
    requires IsCell(m, p) && IsCell(m, p + 4) && 0 <= v < WORD
    ensures var r := PutPtr(m, p, v); |r| == |m| && Ptr(r, p) == v && forall q :: q != p && q != p + 4 ==> Get(r, q) == Get(m, q)
  {
    CellsKept(m, Put(m, p, v % WORD));
    hide Get, Put, IsCell;
  }

  // ----- the list

  /** Every block but the prologue has room for its tags and two pointers. */
  ghost predicate Large(B: Blocks, brk: int) {
    forall a :: a in B && PROLOGUE < a < brk ==> LEAST_BLOCK <= B[a].size
  }

  ghost predicate PtrOk(m: Memory, s: seq<int>, k: int)
    requires 0 <= k < |s|
  {
    Ptr(m, s[k]) == At(s, k - 1) && Ptr(m, s[k] + 8) == At(s, k + 1)
  }

  /** The prev and next pointers of every element say what the list says. */
  ghost predicate DoublyLinked(m: Memory, s: seq<int>) {
    forall k {:trigger PtrOk(m, s, k)} :: 0 <= k < |s| ==> PtrOk(m, s, k)
  }

  /** Free blocks, each at most once. */
  ghost predicate FreeOnce(B: Blocks, s: seq<int>) {
    Distinct(s) && forall k :: 0 <= k < |s| ==> IsFree(B, s[k])
  }

  ghost predicate FreeList(m: Memory, head: int, B: Blocks, s: seq<int>) {
    head == At(s, 0) && FreeOnce(B, s) && DoublyLinked(m, s)
  }

  lemma FreeRoom(m: Memory, B: Blocks, brk: int, a: int)
    requires Tiled(B, brk) && Large(B, brk) && brk <= 4 * |m| && IsFree(B, a)
    ensures a % 8 == 0 && 16 <= a && a + B[a].size <= brk && LEAST_BLOCK <= B[a].size && B[a].size % 8 == 0
    ensures forall m' :: |m'| == |m| ==> IsCell(m', a) && IsCell(m', a + 4) && IsCell(m', a + 8) && IsCell(m', a + 12)
  {
    hide IsCell;
    FreeEnds(B, brk, a);
    FourCells(m, a);
  }

  lemma FreeEnds(B: Blocks, brk: int, a: int)
    requires Tiled(B, brk) && Large(B, brk) && IsFree(B, a)
    ensures a % 8 == 0 && 16 <= a && a + B[a].size <= brk && LEAST_BLOCK <= B[a].size && B[a].size % 8 == 0
  {
    TileFacts(B, brk, a);
    BreakFacts(B, brk);
    Apart(B, brk, a, brk);
    hide Tiled;
  }

  lemma FourCells(m: Memory, a: int)
    requires a % 8 == 0 && 0 <= a && a + 16 <= 4 * |m|
    ensures forall m' :: |m'| == |m| ==> IsCell(m', a) && IsCell(m', a + 4) && IsCell(m', a + 8) && IsCell(m', a + 12)
  {
  }

  lemma FreeApart(B: Blocks, brk: int, a: int, b: int)
    requires Tiled(B, brk) && Large(B, brk) && IsFree(B, a) && IsFree(B, b) && a != b
    ensures a + LEAST_BLOCK <= b || b + LEAST_BLOCK <= a
  {
    TileFacts(B, brk, a);
    TileFacts(B, brk, b);
    if a < b { Apart(B, brk, a, b); } else { Apart(B, brk, b, a); }
  }

  /** `p` lies in one of the four words of links of the block at `a`. */
  predicate InLinks(a: int, p: int) {
    p == a || p == a + 4 || p == a + 8 || p == a + 12
  }

  /** `m'` differs from `m` only in the links of free blocks. */
  ghost predicate OnlyPtrsDiffer(m: Memory, m': Memory, B: Blocks) {
    && |m'| == |m|
    && forall p {:trigger Get(m', p)} :: Get(m', p) == Get(m, p)
         || IsFree(B, p) || IsFree(B, p - 4) || IsFree(B, p - 8) || IsFree(B, p - 12)
  }

  // ----- taking a block out

  ghost predicate Unlinked(m: Memory, m': Memory, s: seq<int>, j: int)
    requires 0 <= j < |s|
  {
    && |m'| == |m|
    && (j > 0 ==> Ptr(m', s[j - 1] + 8) == At(s, j + 1))
    && (j + 1 < |s| ==> Ptr(m', s[j + 1]) == At(s, j - 1))
    && forall p {:trigger Get(m', p)} :: Get(m', p) == Get(m, p)
         || (j > 0 && (p == s[j - 1] + 8 || p == s[j - 1] + 12)) || (j + 1 < |s| && (p == s[j + 1] || p == s[j + 1] + 4))
  }

  /** The writes that take a block out of the list, given its two pointers. */
  function WriteUnlink(m: Memory, prev: int, next: int): (r: Memory)
    ensures |r| == |m|
  {
    var m1 := if prev != 0 then PutPtr(m, prev + 8, next) else m;
    if next != 0 then PutPtr(m1, next, prev) else m1
  }

  lemma AtFacts(m: Memory, B: Blocks, brk: int, s: seq<int>, k: int)
    requires Tiled(B, brk) && Large(B, brk) && brk <= 4 * |m| <= 0x7FFF_FFFF && FreeOnce(B, s) && -1 <= k <= |s|
    ensures 0 <= At(s, k) < WORD && (At(s, k) == 0 <==> k == -1 || k == |s|)
    ensures At(s, k) != 0 ==> var a := At(s, k);
      forall m' :: |m'| == |m| ==> IsCell(m', a) && IsCell(m', a + 4) && IsCell(m', a + 8) && IsCell(m', a + 12)
  {
    if 0 <= k < |s| { FreeRoom(m, B, brk, s[k]); }
  }

  lemma UnlinkWritten(m: Memory, B: Blocks, brk: int, s: seq<int>, j: int)
    requires Tiled(B, brk) && Large(B, brk) && brk <= 4 * |m| <= 0x7FFF_FFFF && FreeOnce(B, s) && 0 <= j < |s|
    ensures Unlinked(m, WriteUnlink(m, At(s, j - 1), At(s, j + 1)), s, j)
  {
    hide Get, PutPtr, Tiled, IsCell, Large, FreeOnce, Ptr;
    var prev, next := At(s, j - 1), At(s, j + 1);
    AtFacts(m, B, brk, s, j - 1);
    AtFacts(m, B, brk, s, j + 1);
    if prev != 0 { PutPtrEffect(m, prev + 8, next); }
    var m1 := if prev != 0 then PutPtr(m, prev + 8, next) else m;
    if next != 0 { PutPtrEffect(m1, next, prev); }
    if prev != 0 && next != 0 {
      ElementsApart(B, brk, s, j - 1, j + 1);
      PtrKept(m1, PutPtr(m1, next, prev), prev + 8);
    }
  }

  lemma ElementsApart(B: Blocks, brk: int, s: seq<int>, i: int, k: int)
    requires Tiled(B, brk) && Large(B, brk) && FreeOnce(B, s) && 0 <= i < |s| && 0 <= k < |s| && i != k
    ensures s[i] + LEAST_BLOCK <= s[k] || s[k] + LEAST_BLOCK <= s[i]
    ensures s[i] % 8 == 0 && s[k] % 8 == 0
  {
    assert s[i] != s[k] by { if i < k { assert s[i] != s[k]; } else { assert s[k] != s[i]; } }
    FreeApart(B, brk, s[i], s[k]);
    TileFacts(B, brk, s[i]);
    TileFacts(B, brk, s[k]);
  }

  lemma PtrKept(m: Memory, m': Memory, p: int)
    requires Get(m', p) == Get(m, p) && Get(m', p + 4) == Get(m, p + 4)
    ensures Ptr(m', p) == Ptr(m, p)
  {
  }

  lemma UnlinkedPtr(m: Memory, m': Memory, B: Blocks, brk: int, s: seq<int>, j: int, k: int)
    requires Tiled(B, brk) && Large(B, brk) && FreeOnce(B, s) && DoublyLinked(m, s) && 0 <= j < |s| && Unlinked(m, m', s, j)
    requires 0 <= k < |s| - 1
    ensures PtrOk(m', RemoveAt(s, j), k)
  {
    hide Get, Tiled, Large, FreeOnce;
    var t, k0 := RemoveAt(s, j), if k < j then k else k + 1;
    assert PtrOk(m, s, k0) && t[k] == s[k0];
    if j > 0 && k0 != j - 1 { ElementsApart(B, brk, s, k0, j - 1); }
    if j + 1 < |s| && k0 != j + 1 { ElementsApart(B, brk, s, k0, j + 1); }
    if k0 != j - 1 { PtrKept(m, m', s[k0] + 8); }
    if k0 != j + 1 { PtrKept(m, m', s[k0]); }
  }

  /** Taking a block out of the list leaves the others linked. */
  lemma UnlinkKeeps(m: Memory, m': Memory, head: int, B: Blocks, brk: int, s: seq<int>, j: int)
    requires Tiled(B, brk) && Large(B, brk) && FreeList(m, head, B, s) && 0 <= j < |s| && Unlinked(m, m', s, j)
    ensures FreeList(m', if j == 0 then At(s, 1) else head, B, RemoveAt(s, j))
    ensures s[j] !in RemoveAt(s, j) && OnlyPtrsDiffer(m, m', B)
  {
    var t := RemoveAt(s, j);
    forall k | 0 <= k < |t| ensures PtrOk(m', t, k) { UnlinkedPtr(m, m', B, brk, s, j, k); }
    hide PtrOk, Get;
  }

  // ----- putting a block in front

  ghost predicate PushedFront(m: Memory, m': Memory, head: int, a: int) {
    && |m'| == |m| && Ptr(m', a) == 0 && Ptr(m', a + 8) == head && (head != 0 ==> Ptr(m', head) == a)
    && forall p {:trigger Get(m', p)} :: Get(m', p) == Get(m, p) || InLinks(a, p) || (head != 0 && (p == head || p == head + 4))
  }

  /** The writes that put `a` in front of the list. */
  function WritePush(m: Memory, a: int, head: int): (r: Memory)
    ensures |r| == |m|
  {
    var m1 := PutPtr(PutPtr(m, a, 0), a + 8, head);
    if head != 0 then PutPtr(m1, head, a) else m1
  }

  lemma PushWritten(m: Memory, B: Blocks, brk: int, s: seq<int>, a: int)
    requires Tiled(B, brk) && Large(B, brk) && brk <= 4 * |m| <= 0x7FFF_FFFF && FreeOnce(B, s) && IsFree(B, a) && a !in s
    ensures PushedFront(m, WritePush(m, a, At(s, 0)), At(s, 0), a)
  {
    hide Get, PutPtr, Tiled, IsCell, Large, FreeOnce, Ptr;
    var head := At(s, 0);
    AtFacts(m, B, brk, s, 0);
    FreeRoom(m, B, brk, a);
    PutPtrEffect(m, a, 0);
    var m1 := PutPtr(m, a, 0);
    PutPtrEffect(m1, a + 8, head);
    var m2 := PutPtr(m1, a + 8, head);
    PtrKept(m1, m2, a);
    if head != 0 {
      HeadApart(B, brk, s, a);
      PutPtrEffect(m2, head, a);
      PtrKept(m2, PutPtr(m2, head, a), a);
      PtrKept(m2, PutPtr(m2, head, a), a + 8);
    }
  }

  lemma HeadApart(B: Blocks, brk: int, s: seq<int>, a: int)
    requires Tiled(B, brk) && Large(B, brk) && FreeOnce(B, s) && IsFree(B, a) && a !in s
    ensures forall k :: 0 <= k < |s| ==> s[k] + LEAST_BLOCK <= a || a + LEAST_BLOCK <= s[k]
  {
    forall k | 0 <= k < |s| ensures s[k] + LEAST_BLOCK <= a || a + LEAST_BLOCK <= s[k] {
      FreeApart(B, brk, s[k], a);
    }
  }

  lemma PushedPtr(m: Memory, m': Memory, B: Blocks, brk: int, s: seq<int>, a: int, k: int)
    requires Tiled(B, brk) && Large(B, brk) && FreeOnce(B, s) && DoublyLinked(m, s) && IsFree(B, a) && a !in s
    requires PushedFront(m, m', At(s, 0), a) && (s != [] ==> At(s, 0) != 0) && 0 <= k <= |s|
    ensures PtrOk(m', [a] + s, k)
  {
    hide Get, Tiled, Large, FreeOnce;
    var t := [a] + s;
    if k > 0 {
      HeadApart(B, brk, s, a);
      assert PtrOk(m, s, k - 1) && t[k] == s[k - 1];
      if k > 1 {
        ElementsApart(B, brk, s, 0, k - 1);
        PtrKept(m, m', s[k - 1]);
      }
      PtrKept(m, m', s[k - 1] + 8);
    }
  }

  /** The list with a free block put in front. */
  lemma PushKeeps(m: Memory, m': Memory, B: Blocks, brk: int, s: seq<int>, a: int)
    requires Tiled(B, brk) && Large(B, brk) && FreeList(m, At(s, 0), B, s) && IsFree(B, a) && a !in s
    requires PushedFront(m, m', At(s, 0), a) && (s != [] ==> At(s, 0) != 0)
    ensures FreeList(m', a, B, [a] + s) && OnlyPtrsDiffer(m, m', B)
  {
    var t := [a] + s;
    forall k | 0 <= k < |t| ensures PtrOk(m', t, k) { PushedPtr(m, m', B, brk, s, a, k); }
    hide PtrOk, Get;
  }

  // ----- changes elsewhere

  ghost predicate NoneIn(s: seq<int>, lo: int, hi: int) {
    forall k :: 0 <= k < |s| ==> s[k] < lo || hi <= s[k]
  }

  /** The list survives whatever happens to a stretch that holds none of its blocks. */
  lemma ListElsewhere(m: Memory, m': Memory, head: int, B: Blocks, brk: int, C: Blocks, s: seq<int>, lo: int, hi: int)
    requires Tiled(B, brk) && Large(B, brk) && FreeList(m, head, B, s) && NoneIn(s, lo, hi) && lo in B
    requires SameOutside(m, m', lo - 4, hi - 4) && SameFreeOutside(B, C, lo, hi)
    ensures FreeList(m', head, C, s)
  {
    forall k | 0 <= k < |s| ensures PtrOk(m', s, k) && IsFree(C, s[k]) {
      assert PtrOk(m, s, k) && IsFree(B, s[k]);
      if s[k] < lo { ListedOutside(B, brk, s[k], lo); }
      PtrKept(m, m', s[k]);
      PtrKept(m, m', s[k] + 8);
    }
  }

  lemma ListedOutside(B: Blocks, brk: int, a: int, lo: int)
    requires Tiled(B, brk) && Large(B, brk) && IsFree(B, a) && lo in B && a < lo
    ensures a + 16 <= lo - 4
  {
    TileFacts(B, brk, a);
    TileFacts(B, brk, lo);
    Apart(B, brk, a, lo);
  }

  // ----- what stays on the list, in order

  /** The list without the blocks from `lo` to `hi`. */
  function OffList(s: seq<int>, lo: int, hi: int): seq<int> {
    if s == [] then [] else (if lo <= s[0] < hi then [] else [s[0]]) + OffList(s[1..], lo, hi)
  }

  lemma {:induction false} OffNone(s: seq<int>, lo: int, hi: int)
    requires forall b :: b in s ==> b < lo || hi <= b
    ensures OffList(s, lo, hi) == s
  {
    if s != [] {
      assert s[0] in s && s == [s[0]] + s[1..];
      assert forall b :: b in s[1..] ==> b in s;
      OffNone(s[1..], lo, hi);
    }
  }

  lemma {:induction false} OffRemoved(s: seq<int>, j: int, lo: int, hi: int)
    requires 0 <= j < |s| && lo <= s[j] < hi
    ensures OffList(RemoveAt(s, j), lo, hi) == OffList(s, lo, hi)
  {
    var r := RemoveAt(s, j);
    if j == 0 {
      assert r == s[1..];
    } else {
      OffRemoved(s[1..], j - 1, lo, hi);
      assert r == [s[0]] + RemoveAt(s[1..], j - 1);
      assert r[0] == s[0] && r[1..] == RemoveAt(s[1..], j - 1);
    }
  }
}
