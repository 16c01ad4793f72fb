module BstPreorder {
  // Rebuilding a binary search tree from its preorder with a stack, and printing its postorder.

  datatype Tree = Leaf | Node(left: Tree, value: int, right: Tree)

  function Preorder(t: Tree): seq<int> {
    match t case Leaf => [] case Node(l, v, r) => [v] + Preorder(l) + Preorder(r)
  }

  function Postorder(t: Tree): seq<int> {
    match t case Leaf => [] case Node(l, v, r) => Postorder(l) + Postorder(r) + [v]
  }

  function Size(t: Tree): nat {
    match t case Leaf => 0 case Node(l, _, r) => 1 + Size(l) + Size(r)
  }

  ghost predicate AllBelow(s: seq<int>, v: int) {
    forall x :: x in s ==> x < v
  }

  ghost predicate AllAbove(s: seq<int>, v: int) {
    forall x :: x in s ==> v < x
  }

  /** A search tree with distinct keys. */
  ghost predicate Bst(t: Tree) {
    match t
    case Leaf => true
    case Node(l, v, r) => Bst(l) && Bst(r) && AllBelow(Preorder(l), v) && AllAbove(Preorder(r), v)
  }

  // ----- the tree that a sequence stands for

  /** The length of the longest prefix without an element greater than `v`. */
  function Split(s: seq<int>, v: int): (n: nat)
    ensures n <= |s| && (forall i :: 0 <= i < n ==> s[i] <= v) && (n < |s| ==> s[n] > v)
  {
    if s == [] || s[0] > v then 0 else 1 + Split(s[1..], v)
  }

  /** The first element is the root; what follows up to the first greater element is on its left. */
  function Rebuilt(s: seq<int>): Tree
    decreases |s|
  {
    if s == [] then Leaf
    else
      var rest := s[1..];
      var n := Split(rest, s[0]);
      Node(Rebuilt(rest[..n]), s[0], Rebuilt(rest[n..]))
  }

  lemma Cut(s: seq<int>, n: nat)
    requires s != [] && n <= |s| - 1
    ensures s == [s[0]] + s[1..][..n] + s[1..][n..]
  {
  }

  lemma Joined(v: int, a: seq<int>, b: seq<int>)
    ensures var s := [v] + a + b; s[0] == v && s[1..] == a + b && s[1..][..|a|] == a && s[1..][|a|..] == b
  {
    var s := [v] + a + b;
    assert s[1..] == a + b;
  }

  /** Whatever the sequence, the tree has it as its preorder. */
  lemma {:induction false} PreorderOfRebuilt(s: seq<int>)
    ensures Preorder(Rebuilt(s)) == s
    decreases |s|
  {
    if s != [] {
      var n := Split(s[1..], s[0]);
      PreorderOfRebuilt(s[1..][..n]);
      PreorderOfRebuilt(s[1..][n..]);
      Cut(s, n);
    }
  }

  lemma SplitOfConcat(a: seq<int>, b: seq<int>, v: int)
    requires AllBelow(a, v) && AllAbove(b, v)
    ensures Split(a + b, v) == |a|
  {
    assert forall i :: 0 <= i < |a| ==> (a + b)[i] == a[i] && a[i] in a;
    assert |b| > 0 ==> (a + b)[|a|] == b[0] && b[0] in b;
  }

  /** A search tree is rebuilt from its preorder. */
  lemma {:induction false} RebuiltIsInverse(t: Tree)
    requires Bst(t)
    ensures Rebuilt(Preorder(t)) == t
  {
    match t
    case Leaf =>
    case Node(l, v, r) =>
      RebuiltIsInverse(l);
      RebuiltIsInverse(r);
      SplitOfConcat(Preorder(l), Preorder(r), v);
      Joined(v, Preorder(l), Preorder(r));
      RebuiltOfJoined(v, Preorder(l), Preorder(r));
  }

  lemma RebuiltOfJoined(v: int, a: seq<int>, b: seq<int>)
    requires Split(a + b, v) == |a|
    ensures Rebuilt([v] + a + b) == Node(Rebuilt(a), v, Rebuilt(b))
  {
    Joined(v, a, b);
  }

  /** The rebuilt tree is a search tree exactly when the sequence is the preorder of one. */
  lemma RebuiltIsBst(s: seq<int>)
    ensures Bst(Rebuilt(s)) <==> exists t :: Bst(t) && Preorder(t) == s
  {
    PreorderOfRebuilt(s);
    forall t | Bst(t) && Preorder(t) == s ensures Rebuilt(s) == t { RebuiltIsInverse(t); }
  }

  ghost predicate Distinct(s: seq<int>) {
    forall i, j :: 0 <= i < j < |s| ==> s[i] != s[j]
  }

  lemma DistinctConcat(a: seq<int>, b: seq<int>)
    requires Distinct(a) && Distinct(b) && forall x, y :: x in a && y in b ==> x != y
    ensures Distinct(a + b)
  {
    forall i, j | 0 <= i < j < |a + b| ensures (a + b)[i] != (a + b)[j] {
      if i < |a| <= j { assert a[i] in a && b[j - |a|] in b; }
    }
  }

  lemma DistinctJoin(v: int, a: seq<int>, b: seq<int>)
    requires Distinct(a) && Distinct(b) && AllBelow(a, v) && AllAbove(b, v)
    ensures Distinct([v] + a + b)
  {
    DistinctConcat([v], a);
    DistinctConcat([v] + a, b);
  }

  /** No key occurs twice in the preorder of a search tree. */
  lemma {:induction false} DistinctKeys(t: Tree)
    requires Bst(t)
    ensures Distinct(Preorder(t))
  {
    match t
    case Leaf =>
    case Node(l, v, r) =>
      DistinctKeys(l);
      DistinctKeys(r);
      DistinctJoin(v, Preorder(l), Preorder(r));
  }

  // ----- adding one element at the end

  /** Where the next element goes: into the right subtree where there is one; else left of a root that it
      does not exceed, and right of one that it does. */
  function Attached(t: Tree, x: int): Tree {
    match t
    case Leaf => Node(Leaf, x, Leaf)
    case Node(l, v, r) =>
      if r != Leaf then Node(l, v, Attached(r, x))
      else if x <= v then Node(Attached(l, x), v, Leaf)
      else Node(l, v, Node(Leaf, x, Leaf))
  }

  lemma {:induction false} RebuiltStep(s: seq<int>, x: int)
    ensures Rebuilt(s + [x]) == Attached(Rebuilt(s), x)
    decreases |s|
  {
    if s == [] {
      assert (s + [x])[1..] == [];
      assert Split([], x) == 0;
    } else {
      var rest := s[1..];
      var n := Split(rest, s[0]);
      assert (s + [x])[1..] == rest + [x];
      SplitStep(rest, x, s[0]);
      if n < |rest| {
        assert (rest + [x])[..n] == rest[..n] && (rest + [x])[n..] == rest[n..] + [x];
        RebuiltStep(rest[n..], x);
      } else if x <= s[0] {
        assert (rest + [x])[..n + 1] == rest[..n] + [x] && (rest + [x])[n + 1..] == [] && rest[n..] == [];
        RebuiltStep(rest[..n], x);
      } else {
        assert (rest + [x])[..n] == rest[..n] && (rest + [x])[n..] == [x] && rest[n..] == [];
        assert Rebuilt([x]) == Node(Leaf, x, Leaf);
      }
    }
  }

  lemma SplitStep(s: seq<int>, x: int, v: int)
    ensures Split(s + [x], v) == if Split(s, v) < |s| then Split(s, v) else if x <= v then |s| + 1 else |s|
  {
    var n, m := Split(s, v), Split(s + [x], v);
    assert forall i :: 0 <= i < |s| ==> (s + [x])[i] == s[i];
    assert (s + [x])[|s|] == x;
  }

  // ----- the stack: the nodes on the way to the last one whose right side is still open

  /** Nodes are numbered in preorder, from `j`. */
  function Spine(t: Tree, j: nat): seq<nat>
    decreases t
  {
    match t
    case Leaf => []
    case Node(l, _, r) => if r == Leaf then [j] + Spine(l, j + 1) else Spine(r, j + 1 + Size(l))
  }

  /** From index `j` on, `nums` holds the preorder of `t`. */
  ghost predicate Holds(nums: seq<int>, j: nat, t: Tree)
    decreases t
  {
    match t
    case Leaf => j <= |nums|
    case Node(l, v, r) => j < |nums| && nums[j] == v && Holds(nums, j + 1, l) && Holds(nums, j + 1 + Size(l), r)
  }

  lemma SliceParts(nums: seq<int>, j: nat, v: int, a: seq<int>, b: seq<int>)
    requires j + 1 + |a| + |b| <= |nums| && nums[j..j + 1 + |a| + |b|] == [v] + a + b
    ensures nums[j] == v && nums[j + 1..j + 1 + |a|] == a && nums[j + 1 + |a|..j + 1 + |a| + |b|] == b
  {
    var s := nums[j..j + 1 + |a| + |b|];
    assert nums[j] == s[0];
    assert forall i :: 0 <= i < |a| ==> nums[j + 1 + i] == s[1 + i] == a[i];
    assert forall i :: 0 <= i < |b| ==> nums[j + 1 + |a| + i] == s[1 + |a| + i] == b[i];
  }

  lemma {:induction false} PreorderHolds(nums: seq<int>, j: nat, t: Tree)
    requires j + Size(t) <= |nums| && nums[j..j + Size(t)] == Preorder(t)
    ensures Holds(nums, j, t)
    decreases t
  {
    match t
    case Leaf =>
    case Node(l, v, r) =>
      SizeIsLength(l);
      SizeIsLength(r);
      SliceParts(nums, j, v, Preorder(l), Preorder(r));
      PreorderHolds(nums, j + 1, l);
      PreorderHolds(nums, j + 1 + Size(l), r);
  }

  lemma {:induction false} SizeIsLength(t: Tree)
    ensures |Preorder(t)| == Size(t)
  {
    if t.Node? { SizeIsLength(t.left); SizeIsLength(t.right); }
  }

  ghost predicate SpineOk(t: Tree, j: nat) {
    && (forall q :: 0 <= q < |Spine(t, j)| ==> j <= Spine(t, j)[q] < j + Size(t))
    && (t != Leaf ==> Spine(t, j) != [] && Spine(t, j)[|Spine(t, j)| - 1] == j + Size(t) - 1)
  }

  /** Its members are nodes of the tree, and the last one is the node added last. */
  lemma {:induction false} SpineBounds(t: Tree, j: nat)
    ensures SpineOk(t, j)
    decreases t
  {
    match t
    case Leaf =>
    case Node(l, v, r) =>
      SpineBounds(l, j + 1);
      SpineBounds(r, j + 1 + Size(l));
  }

  /** No element on the left of a node exceeds it. */
  ghost predicate LeftOk(t: Tree) {
    match t
    case Leaf => true
    case Node(l, v, r) => LeftOk(l) && LeftOk(r) && forall x :: x in Preorder(l) ==> x <= v
  }

  lemma {:induction false} RebuiltLeftOk(s: seq<int>)
    ensures LeftOk(Rebuilt(s))
    decreases |s|
  {
    if s != [] {
      var rest := s[1..];
      var n := Split(rest, s[0]);
      RebuiltLeftOk(rest[..n]);
      RebuiltLeftOk(rest[n..]);
      PreorderOfRebuilt(rest[..n]);
    }
  }

  lemma {:induction false} HoldsMember(nums: seq<int>, j: nat, t: Tree, k: nat)
    requires Holds(nums, j, t) && j <= k < j + Size(t)
    ensures k < |nums| && nums[k] in Preorder(t)
    decreases t
  {
    match t
    case Node(l, v, r) =>
      if k > j {
        if k < j + 1 + Size(l) { HoldsMember(nums, j + 1, l, k); } else { HoldsMember(nums, j + 1 + Size(l), r, k); }
      }
  }

  ghost predicate Falls(nums: seq<int>, s: seq<nat>) {
    && (forall q :: 0 <= q < |s| ==> s[q] < |nums|)
    && forall p, q :: 0 <= p < q < |s| ==> nums[s[p]] >= nums[s[q]]
  }

  /** Values never rise from the bottom of the stack to the top. */
  lemma {:induction false} SpineFalls(nums: seq<int>, t: Tree, j: nat)
    requires LeftOk(t) && Holds(nums, j, t)
    ensures Falls(nums, Spine(t, j))
    decreases t
  {
    match t
    case Leaf =>
    case Node(l, v, r) =>
      if r == Leaf {
        SpineFalls(nums, l, j + 1);
        SpineBounds(l, j + 1);
        var s := Spine(l, j + 1);
        forall q | 0 <= q < |s| ensures nums[s[q]] <= v { HoldsMember(nums, j + 1, l, s[q]); }
      } else {
        SpineFalls(nums, r, j + 1 + Size(l));
      }
  }

  /** How many nodes from the bottom of the stack on are not less than `x`. */
  function Lead(nums: seq<int>, s: seq<nat>, x: int): (k: nat)
    requires forall q :: 0 <= q < |s| ==> s[q] < |nums|
    ensures k <= |s|
  {
    if s == [] || nums[s[0]] < x then 0 else 1 + Lead(nums, s[1..], x)
  }

  // ----- the links between the nodes

  const NONE := -1

  /** `lefts` and `rights` link the nodes numbered from `j` on into `t`. */
  ghost predicate Linked(lefts: seq<int>, rights: seq<int>, j: nat, t: Tree)
    decreases t
  {
    match t
    case Leaf => true
    case Node(l, v, r) =>
      && j < |lefts| && j < |rights|
      && lefts[j] == (if l == Leaf then NONE else j + 1) && rights[j] == (if r == Leaf then NONE else j + 1 + Size(l))
      && Linked(lefts, rights, j + 1, l) && Linked(lefts, rights, j + 1 + Size(l), r)
  }

  ghost predicate SameLinks(a: seq<int>, b: seq<int>, j: nat, n: nat) {
    j + n <= |a| && j + n <= |b| && forall q :: j <= q < j + n ==> a[q] == b[q]
  }

  lemma {:induction false} LinkedElsewhere(l0: seq<int>, r0: seq<int>, l1: seq<int>, r1: seq<int>, j: nat, t: Tree)
    requires Linked(l0, r0, j, t) && SameLinks(l0, l1, j, Size(t)) && SameLinks(r0, r1, j, Size(t))
    ensures Linked(l1, r1, j, t)
    decreases t
  {
    if t.Node? {
      LinkedElsewhere(l0, r0, l1, r1, j + 1, t.left);
      LinkedElsewhere(l0, r0, l1, r1, j + 1 + Size(t.left), t.right);
    }
  }

  function LeftsAfter(lefts: seq<int>, s: seq<nat>, k: nat): seq<int>
    requires k <= |s| && (k == |s| > 0 ==> s[k - 1] < |lefts|)
  {
    (if k == |s| > 0 then lefts[s[k - 1] := |lefts|] else lefts) + [NONE]
  }

  function RightsAfter(rights: seq<int>, s: seq<nat>, k: nat): seq<int>
    requires k < |s| ==> s[k] < |rights|
  {
    (if k < |s| then rights[s[k] := |rights|] else rights) + [NONE]
  }

  ghost predicate Indices(s: seq<nat>, n: nat) {
    forall q :: 0 <= q < |s| ==> s[q] < n
  }

  /** The stack after the step: what the new element does not exceed, and the new element. */
  lemma {:induction false} SpineStep(nums: seq<int>, t: Tree, j: nat, x: int)
    requires Holds(nums, j, t)
    ensures Indices(Spine(t, j), |nums|)
    ensures Spine(Attached(t, x), j) == Spine(t, j)[..Lead(nums, Spine(t, j), x)] + [j + Size(t)]
    decreases t
  {
    match t
    case Leaf =>
    case Node(l, v, r) =>
      if r != Leaf {
        SpineStep(nums, r, j + 1 + Size(l), x);
        AttachedIsNode(r, x);
      } else {
        SpineStep(nums, l, j + 1, x);
        var s, below := Spine(t, j), Spine(l, j + 1);
        assert s == [j] + below && s[1..] == below;
        if x <= v {
          var k := Lead(nums, below, x);
          assert Lead(nums, s, x) == 1 + k;
          assert s[..1 + k] == [j] + below[..k];
          assert Spine(Attached(t, x), j) == [j] + (below[..k] + [j + 1 + Size(l)]);
        } else {
          assert Lead(nums, s, x) == 0 && s[..0] == [];
          assert Spine(Node(Leaf, x, Leaf), j + 1 + Size(l)) == [j + 1 + Size(l)];
        }
      }
  }

  lemma AttachedIsNode(t: Tree, x: int)
    ensures Attached(t, x).Node? && Size(Attached(t, x)) == Size(t) + 1
    decreases t
  {
    if t.Node? { AttachedIsNode(t.left, x); AttachedIsNode(t.right, x); }
  }

  /** The two arrays of links after the step, when `s` is the stack before it. */
  ghost predicate LinksAfter(nums: seq<int>, lefts: seq<int>, rights: seq<int>, s: seq<nat>, x: int, lefts': seq<int>, rights': seq<int>)
    requires Indices(s, |nums|)
  {
    && |lefts| == |rights| && Indices(s, |lefts|)
    && lefts' == LeftsAfter(lefts, s, Lead(nums, s, x)) && rights' == RightsAfter(rights, s, Lead(nums, s, x))
  }

  /** The only link that changes is one of a node on the stack. */
  lemma LinksElsewhere(nums: seq<int>, lefts: seq<int>, rights: seq<int>, s: seq<nat>, x: int, lefts': seq<int>, rights': seq<int>, j: nat, n: nat)
    requires Indices(s, |nums|) && LinksAfter(nums, lefts, rights, s, x, lefts', rights') && j + n <= |lefts|
    requires forall q :: 0 <= q < |s| ==> s[q] < j || s[q] >= j + n
    ensures SameLinks(lefts, lefts', j, n) && SameLinks(rights, rights', j, n)
  {
  }

  /** Linking the new element in where the stack says makes the nodes represent the new tree. */
  lemma {:induction false} LinkStep(nums: seq<int>, lefts: seq<int>, rights: seq<int>, t: Tree, j: nat, x: int, lefts': seq<int>, rights': seq<int>)
    requires Holds(nums, j, t) && Linked(lefts, rights, j, t) && t != Leaf && j + Size(t) == |lefts| && Indices(Spine(t, j), |nums|)
    requires LinksAfter(nums, lefts, rights, Spine(t, j), x, lefts', rights')
    ensures Linked(lefts', rights', j, Attached(t, x))
    decreases t
  {
    if t.right != Leaf {
      assert Spine(t, j) == Spine(t.right, j + 1 + Size(t.left));
      hide LinksAfter;
      LinkStep(nums, lefts, rights, t.right, j + 1 + Size(t.left), x, lefts', rights');
      IntoRight(nums, lefts, rights, t, j, x, lefts', rights');
    } else if x > t.value {
      hide LinksAfter;
      Beside(nums, lefts, rights, t, j, x, lefts', rights');
    } else {
      hide LinksAfter;
      StackBelow(nums, lefts, rights, t, j, x, lefts', rights');
      if t.left != Leaf {
        LinkStep(nums, lefts, rights, t.left, j + 1, x, lefts', rights');
        IntoLeft(nums, lefts, rights, t, j, x, lefts', rights');
      }
    }
  }

  lemma IntoRight(nums: seq<int>, lefts: seq<int>, rights: seq<int>, t: Tree, j: nat, x: int, lefts': seq<int>, rights': seq<int>)
    requires t.Node? && t.right != Leaf && Linked(lefts, rights, j, t) && j + Size(t) == |lefts| && Indices(Spine(t, j), |nums|)
    requires LinksAfter(nums, lefts, rights, Spine(t, j), x, lefts', rights')
    requires Linked(lefts', rights', j + 1 + Size(t.left), Attached(t.right, x))
    ensures Linked(lefts', rights', j, Attached(t, x))
  {
    SpineBounds(t.right, j + 1 + Size(t.left));
    LinksElsewhere(nums, lefts, rights, Spine(t, j), x, lefts', rights', j, 1 + Size(t.left));
    hide LinksAfter, Spine;
    LinkedElsewhere(lefts, rights, lefts', rights', j + 1, t.left);
    AttachedIsNode(t.right, x);
  }

  lemma Beside(nums: seq<int>, lefts: seq<int>, rights: seq<int>, t: Tree, j: nat, x: int, lefts': seq<int>, rights': seq<int>)
    requires t.Node? && t.right == Leaf && x > t.value && Holds(nums, j, t) && Linked(lefts, rights, j, t) && j + Size(t) == |lefts|
    requires Indices(Spine(t, j), |nums|) && LinksAfter(nums, lefts, rights, Spine(t, j), x, lefts', rights')
    ensures Linked(lefts', rights', j, Attached(t, x))
  {
    var s := Spine(t, j);
    assert s[0] == j && Lead(nums, s, x) == 0;
    assert |rights| == |lefts| && lefts' == lefts + [NONE] && rights' == rights[j := |rights|] + [NONE];
    hide LinksAfter, Spine;
    assert Linked(lefts', rights', |lefts|, Node(Leaf, x, Leaf));
    LinkedElsewhere(lefts, rights, lefts', rights', j + 1, t.left);
  }

  /** When the root takes the element to its left, it stays on the stack, and the rest of the stack is that
      of its left subtree. */
  lemma StackBelow(nums: seq<int>, lefts: seq<int>, rights: seq<int>, t: Tree, j: nat, x: int, lefts': seq<int>, rights': seq<int>)
    requires t.Node? && t.right == Leaf && x <= t.value && Holds(nums, j, t) && Linked(lefts, rights, j, t) && j + Size(t) == |lefts|
    requires Indices(Spine(t, j), |nums|) && LinksAfter(nums, lefts, rights, Spine(t, j), x, lefts', rights')
    ensures t.left != Leaf ==> Indices(Spine(t.left, j + 1), |nums|) && LinksAfter(nums, lefts, rights, Spine(t.left, j + 1), x, lefts', rights')
    ensures t.left == Leaf ==> Linked(lefts', rights', j, Attached(t, x))
  {
    var s, below := Spine(t, j), Spine(t.left, j + 1);
    assert s == [j] + below && s[1..] == below;
    assert forall q :: 0 <= q < |below| ==> below[q] == s[q + 1];
    assert Lead(nums, s, x) == 1 + Lead(nums, below, x);
    if t.left == Leaf {
      assert below == [];
      assert lefts' == lefts[j := |lefts|] + [NONE] && rights' == rights + [NONE];
      assert |rights| == |lefts| == j + 1;
      assert Linked(lefts', rights', j + 1, Node(Leaf, x, Leaf));
    } else {
      SpineBounds(t.left, j + 1);
      hide Linked, Holds, Spine, Lead;
    }
  }

  lemma IntoLeft(nums: seq<int>, lefts: seq<int>, rights: seq<int>, t: Tree, j: nat, x: int, lefts': seq<int>, rights': seq<int>)
    requires t.Node? && t.right == Leaf && t.left != Leaf && x <= t.value && Linked(lefts, rights, j, t) && j + Size(t) == |lefts|
    requires Indices(Spine(t.left, j + 1), |nums|) && LinksAfter(nums, lefts, rights, Spine(t.left, j + 1), x, lefts', rights')
    requires Linked(lefts', rights', j + 1, Attached(t.left, x))
    ensures Linked(lefts', rights', j, Attached(t, x))
  {
    SpineBounds(t.left, j + 1);
    LinksElsewhere(nums, lefts, rights, Spine(t.left, j + 1), x, lefts', rights', j, 1);
    AttachedIsNode(t.left, x);
    hide LinksAfter, Spine;
  }
}
