/** The twenty segregated free lists: doubly linked through the first two words of each free block,
    ordered by size, one list for each size class.
 */
module SegLists {
  import opened SegWords
  import opened SegLayout

  const LISTLIMIT := 20
  const MIN_FREE_BLOCK_SIZE := 16

  type Lists = seq<seq<int>>

  // ----- size classes

  /** The loop of `get_list_index`, entered with `index` and `bound`. */
  function ListIndexFrom(size: int, index: nat, bound: int): (r: nat)
    requires index < LISTLIMIT
    ensures index <= r < LISTLIMIT
    decreases LISTLIMIT - index
  {
    if index < LISTLIMIT - 1 && size > bound then ListIndexFrom(size, index + 1, 2 * bound) else index
  }

  function ListIndex(size: int): (r: nat)
    ensures r < LISTLIMIT
  {
    ListIndexFrom(size, 0, MIN_FREE_BLOCK_SIZE)
  }

  lemma {:induction false} ListIndexFromMonotone(s: int, t: int, index: nat, bound: int)
    requires s <= t && index < LISTLIMIT
    ensures ListIndexFrom(s, index, bound) <= ListIndexFrom(t, index, bound)
    decreases LISTLIMIT - index
  {
    if index < LISTLIMIT - 1 && s > bound {
      ListIndexFromMonotone(s, t, index + 1, 2 * bound);
    }
  }

  /** A larger class holds only larger sizes. */
  lemma ClassesAreOrdered(s: int, t: int)
    ensures ListIndex(s) < ListIndex(t) ==> s < t
  {
    if t <= s {
      ListIndexFromMonotone(t, s, 0, MIN_FREE_BLOCK_SIZE);
    }
  }

  // ----- lists and their memory

  /** Element `k`, or NULL off either end. */
  ghost function At(s: seq<int>, k: int): int {
    if 0 <= k < |s| then s[k] else 0
  }

  /** `a` is a free block of class `i`. */
  ghost predicate IsMember(B: Blocks, a: int, i: int) {
    a in B && !B[a].alloc && ListIndex(B[a].size) == i
  }

  ghost predicate SizeOrdered(B: Blocks, a: int, b: int) {
    a in B && b in B && B[a].size <= B[b].size
  }

  ghost predicate Distinct(s: seq<int>) {
    forall j, k :: 0 <= j < k < |s| ==> s[j] != s[k]
  }

  ghost predicate ListShape(B: Blocks, s: seq<int>, i: int) {
    && (forall k :: 0 <= k < |s| ==> IsMember(B, s[k], i))
    && Distinct(s)
    && (forall j, k :: 0 <= j < k < |s| ==> SizeOrdered(B, s[j], s[k]))
  }

  ghost predicate LinkOk(m: Memory, s: seq<int>, k: int)
    requires 0 <= k < |s|
  {
    Get(m, s[k]) == At(s, k - 1) && Get(m, s[k] + 4) == At(s, k + 1)
  }

  /** The pred and succ words of every element say what the list says. */
  ghost predicate Linked(m: Memory, s: seq<int>) {
    forall k {:trigger LinkOk(m, s, k)} :: 0 <= k < |s| ==> LinkOk(m, s, k)
  }

  ghost predicate ListOk(m: Memory, head: int, B: Blocks, s: seq<int>, i: int) {
    head == At(s, 0) && ListShape(B, s, i) && Linked(m, s)
  }

  ghost predicate Listed(m: Memory, seg: seq<int>, B: Blocks, L: Lists) {
    && |seg| == |L| == LISTLIMIT
    && forall i {:trigger ListOk(m, seg[i], B, L[i], i)} :: 0 <= i < LISTLIMIT ==> ListOk(m, seg[i], B, L[i], i)
  }

  ghost predicate NotListed(L: Lists, a: int) {
    forall i :: 0 <= i < |L| ==> a !in L[i]
  }

  lemma ListFacts(m: Memory, seg: seq<int>, B: Blocks, L: Lists, i: int)
    requires Listed(m, seg, B, L) && 0 <= i < LISTLIMIT
    ensures ListOk(m, seg[i], B, L[i], i)
  {
  }

  lemma NotListedByClass(m: Memory, seg: seq<int>, B: Blocks, L: Lists, a: int)
    requires Listed(m, seg, B, L) && a in B
    requires B[a].alloc || a !in L[ListIndex(B[a].size)]
    ensures NotListed(L, a)
  {
    forall i | 0 <= i < |L| ensures a !in L[i] {
      ListFacts(m, seg, B, L, i);
      assert forall k :: 0 <= k < |L[i]| ==> IsMember(B, L[i][k], i);
    }
  }

  // ----- a change elsewhere in the heap

  /** No listed block starts between `lo` and `hi`. */
  ghost predicate NoneListedIn(L: Lists, lo: int, hi: int) {
    forall i, a :: 0 <= i < |L| && a in L[i] ==> a < lo || hi <= a
  }

  lemma BlockNotListed(m: Memory, seg: seq<int>, B: Blocks, brk: int, L: Lists, lo: int)
    requires Tiled(B, brk) && Listed(m, seg, B, L) && lo in B && NotListed(L, lo)
    ensures NoneListedIn(L, lo, lo + B[lo].size)
  {
    forall i, a | 0 <= i < |L| && a in L[i] ensures a < lo || lo + B[lo].size <= a {
      ListFacts(m, seg, B, L, i);
      var k :| 0 <= k < |L[i]| && L[i][k] == a;
      assert IsMember(B, L[i][k], i);
      if lo < a {
        Apart(B, brk, lo, a);
      }
    }
  }

  /** Two tilings with the same free blocks outside a stretch. */
  ghost predicate SameFreeOutside(B: Blocks, C: Blocks, lo: int, hi: int) {
    forall a :: a in B && !B[a].alloc && (a < lo || hi <= a) ==> a in C && !C[a].alloc && C[a].size == B[a].size
  }

  /** A list survives any change to a stretch that holds none of its blocks. */
  lemma ListedElsewhere(m: Memory, m': Memory, seg: seq<int>, B: Blocks, brk: int, C: Blocks, L: Lists, lo: int, hi: int)
    requires Tiled(B, brk) && Listed(m, seg, B, L) && lo in B
    requires SameOutside(m, m', lo - 4, hi) && SameFreeOutside(B, C, lo, hi) && NoneListedIn(L, lo, hi)
    ensures Listed(m', seg, C, L)
  {
    forall i | 0 <= i < LISTLIMIT ensures ListOk(m', seg[i], C, L[i], i) {
      ListFacts(m, seg, B, L, i);
      var s := L[i];
      forall k | 0 <= k < |s|
        ensures IsMember(C, s[k], i) && C[s[k]].size == B[s[k]].size && LinkOk(m', s, k)
      {
        assert IsMember(B, s[k], i) && LinkOk(m, s, k) && s[k] in L[i];
        TileFacts(B, brk, s[k]);
        if s[k] < lo {
          Apart(B, brk, s[k], lo);
        }
      }
      forall j, k | 0 <= j < k < |s| ensures SizeOrdered(C, s[j], s[k]) {
        assert SizeOrdered(B, s[j], s[k]);
        assert IsMember(C, s[j], i) && IsMember(C, s[k], i);
      }
    }
  }

  // ----- writes that only touch links

  /** `m'` differs from `m` only in the link words of free blocks. */
  ghost predicate OnlyLinksDiffer(m: Memory, m': Memory, B: Blocks) {
    && |m'| == |m|
    && forall p {:trigger Get(m', p)} :: Get(m', p) == Get(m, p) || IsFree(B, p) || IsFree(B, p - 4)
  }

  ghost predicate IsFree(B: Blocks, a: int) {
    a in B && !B[a].alloc
  }

  // ----- insertion

  ghost function InsertAt(s: seq<int>, j: int, a: int): seq<int>
    requires 0 <= j <= |s|
  {
    s[..j] + [a] + s[j..]
  }

  /** The memory after `insert_block` has put `a` at position `j` of `s`. */
  ghost predicate Inserted(m: Memory, m': Memory, s: seq<int>, j: int, a: int)
    requires 0 <= j <= |s|
  {
    && |m'| == |m|
    && Get(m', a) == At(s, j - 1) && Get(m', a + 4) == At(s, j)
    && (j > 0 ==> Get(m', s[j - 1] + 4) == a)
    && (j < |s| ==> Get(m', s[j]) == a)
    && forall p {:trigger Get(m', p)} :: p != a && p != a + 4 && (j > 0 ==> p != s[j - 1] + 4) && (j < |s| ==> p != s[j])
         ==> Get(m', p) == Get(m, p)
  }

  /** `a` may stand at position `j`: after everything smaller, before everything not smaller. */
  ghost predicate Fits(B: Blocks, s: seq<int>, j: int, a: int)
    requires 0 <= j <= |s|
  {
    && (forall k :: 0 <= k < j ==> SizeOrdered(B, s[k], a))
    && (forall k :: j <= k < |s| ==> SizeOrdered(B, a, s[k]))
  }

  lemma InsertedShape(B: Blocks, s: seq<int>, i: int, j: int, a: int)
    requires ListShape(B, s, i) && IsMember(B, a, i) && a !in s && 0 <= j <= |s| && Fits(B, s, j, a)
    ensures ListShape(B, InsertAt(s, j, a), i)
  {
  }

  lemma InsertedLinks(m: Memory, m': Memory, B: Blocks, brk: int, s: seq<int>, i: int, j: int, a: int)
    requires Tiled(B, brk) && ListShape(B, s, i) && Linked(m, s) && IsMember(B, a, i) && a !in s
    requires 0 <= j <= |s| && Inserted(m, m', s, j, a)
    ensures Linked(m', InsertAt(s, j, a))
  {
    var t := InsertAt(s, j, a);
    forall k | 0 <= k < |t| ensures LinkOk(m', t, k) {
      InsertedLink(m, m', B, brk, s, i, j, a, k);
    }
  }

  lemma InsertedLink(m: Memory, m': Memory, B: Blocks, brk: int, s: seq<int>, i: int, j: int, a: int, k: int)
    requires Tiled(B, brk) && ListShape(B, s, i) && Linked(m, s) && IsMember(B, a, i) && a !in s
    requires 0 <= j <= |s| && Inserted(m, m', s, j, a) && 0 <= k <= |s|
    ensures LinkOk(m', InsertAt(s, j, a), k)
  {
    hide ListIndex, Get;
    var t := InsertAt(s, j, a);
    TileFacts(B, brk, a);
    if k != j {
      var k0 := if k < j then k else k - 1;
      assert t[k] == s[k0] && IsMember(B, s[k0], i) && LinkOk(m, s, k0);
      TileFacts(B, brk, s[k0]);
      if j > 0 {
        assert IsMember(B, s[j - 1], i);
        TileFacts(B, brk, s[j - 1]);
      }
      if j < |s| {
        assert IsMember(B, s[j], i);
        TileFacts(B, brk, s[j]);
      }
    }
  }

  lemma OtherListKept(m: Memory, m': Memory, B: Blocks, brk: int, t: seq<int>, head: int, n: int, touched: set<int>, i: int)
    requires Tiled(B, brk) && ListOk(m, head, B, t, n) && n != i
    requires forall x :: x in touched ==> IsMember(B, x, i)
    requires forall p {:trigger Get(m', p)} :: p !in touched && p - 4 !in touched ==> Get(m', p) == Get(m, p)
    ensures ListOk(m', head, B, t, n)
  {
    forall k | 0 <= k < |t| ensures LinkOk(m', t, k) {
      assert IsMember(B, t[k], n) && LinkOk(m, t, k);
      TileFacts(B, brk, t[k]);
      forall x | x in touched ensures x % 8 == 0 && x != t[k] {
        TileFacts(B, brk, x);
      }
      assert t[k] - 4 !in touched && t[k] + 4 !in touched;
    }
  }

  /** `insert_block` keeps every list, and puts the block on the list of its class. */
  lemma InsertListed(m: Memory, m': Memory, seg: seq<int>, B: Blocks, brk: int, L: Lists, j: int, a: int)
    requires Tiled(B, brk) && Listed(m, seg, B, L) && IsFree(B, a) && NotListed(L, a)
    requires var s := L[ListIndex(B[a].size)]; 0 <= j <= |s| && Fits(B, s, j, a) && Inserted(m, m', s, j, a)
    ensures var i := ListIndex(B[a].size);
      && Listed(m', if j == 0 then seg[i := a] else seg, B, L[i := InsertAt(L[i], j, a)])
      && OnlyLinksDiffer(m, m', B)
  {
    var i := ListIndex(B[a].size);
    var s := L[i];
    var seg' := if j == 0 then seg[i := a] else seg;
    var L' := L[i := InsertAt(s, j, a)];
    ListFacts(m, seg, B, L, i);
    InsertedShape(B, s, i, j, a);
    InsertedLinks(m, m', B, brk, s, i, j, a);
    var touched := {a} + (if j > 0 then {s[j - 1]} else {}) + (if j < |s| then {s[j]} else {});
    assert forall x :: x in touched ==> IsMember(B, x, i);
    forall n | 0 <= n < LISTLIMIT ensures ListOk(m', seg'[n], B, L'[n], n) {
      ListFacts(m, seg, B, L, n);
      if n != i {
        OtherListKept(m, m', B, brk, L[n], seg[n], n, touched, i);
      }
    }
  }

  // ----- removal

  ghost function RemoveAt(s: seq<int>, j: int): seq<int>
    requires 0 <= j < |s|
  {
    s[..j] + s[j + 1..]
  }

  /** The memory after `remove_block` has taken out position `j` of `s`. */
  ghost predicate Removed(m: Memory, m': Memory, s: seq<int>, j: int)
    requires 0 <= j < |s|
  {
    && |m'| == |m|
    && (j > 0 ==> Get(m', s[j - 1] + 4) == At(s, j + 1))
    && (j + 1 < |s| ==> Get(m', s[j + 1]) == At(s, j - 1))
    && forall p {:trigger Get(m', p)} :: (j > 0 ==> p != s[j - 1] + 4) && (j + 1 < |s| ==> p != s[j + 1])
         ==> Get(m', p) == Get(m, p)
  }

  lemma RemovedShape(B: Blocks, s: seq<int>, i: int, j: int)
    requires ListShape(B, s, i) && 0 <= j < |s|
    ensures ListShape(B, RemoveAt(s, j), i) && s[j] !in RemoveAt(s, j)
  {
  }

  lemma RemovedLinks(m: Memory, m': Memory, B: Blocks, brk: int, s: seq<int>, i: int, j: int)
    requires Tiled(B, brk) && ListShape(B, s, i) && Linked(m, s)
    requires 0 <= j < |s| && Removed(m, m', s, j)
    ensures Linked(m', RemoveAt(s, j))
  {
    var t := RemoveAt(s, j);
    forall k | 0 <= k < |t| ensures LinkOk(m', t, k) {
      RemovedLink(m, m', B, brk, s, i, j, k);
    }
  }

  lemma RemovedLink(m: Memory, m': Memory, B: Blocks, brk: int, s: seq<int>, i: int, j: int, k: int)
    requires Tiled(B, brk) && ListShape(B, s, i) && Linked(m, s)
    requires 0 <= j < |s| && Removed(m, m', s, j) && 0 <= k < |s| - 1
    ensures LinkOk(m', RemoveAt(s, j), k)
  {
    hide ListIndex, Get;
    var k0 := if k < j then k else k + 1;
    assert RemoveAt(s, j)[k] == s[k0] && IsMember(B, s[k0], i) && LinkOk(m, s, k0);
    TileFacts(B, brk, s[k0]);
    if j > 0 {
      assert IsMember(B, s[j - 1], i);
      TileFacts(B, brk, s[j - 1]);
    }
    if j + 1 < |s| {
      assert IsMember(B, s[j + 1], i);
      TileFacts(B, brk, s[j + 1]);
    }
  }

  /** `remove_block` keeps every list, and takes the block off the one it was on. */
  lemma RemoveListed(m: Memory, m': Memory, seg: seq<int>, B: Blocks, brk: int, L: Lists, j: int, a: int)
    requires Tiled(B, brk) && Listed(m, seg, B, L) && IsFree(B, a)
    requires var s := L[ListIndex(B[a].size)]; 0 <= j < |s| && s[j] == a && Removed(m, m', s, j)
    ensures var i := ListIndex(B[a].size); var L' := L[i := RemoveAt(L[i], j)];
      && Listed(m', if j == 0 then seg[i := At(L[i], 1)] else seg, B, L')
      && NotListed(L', a) && OnlyLinksDiffer(m, m', B)
  {
    var i := ListIndex(B[a].size);
    var s := L[i];
    var seg' := if j == 0 then seg[i := At(s, 1)] else seg;
    var L' := L[i := RemoveAt(s, j)];
    ListFacts(m, seg, B, L, i);
    RemovedShape(B, s, i, j);
    RemovedLinks(m, m', B, brk, s, i, j);
    var touched := (if j > 0 then {s[j - 1]} else {}) + (if j + 1 < |s| then {s[j + 1]} else {});
    assert forall x :: x in touched ==> IsMember(B, x, i);
    forall n | 0 <= n < LISTLIMIT ensures ListOk(m', seg'[n], B, L'[n], n) {
      ListFacts(m, seg, B, L, n);
      if n != i {
        OtherListKept(m, m', B, brk, L[n], seg[n], n, touched, i);
      }
    }
    NotListedByClass(m', seg', B, L', a);
  }
}
