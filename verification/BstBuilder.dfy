/** The program itself: nodes linked in place with a stack, then printed in postorder. */
module BstBuilder {
  import opened BstPreorder

  class TreeNode {
    var value: int
    var left: TreeNode?
    var right: TreeNode?

    constructor (value: int)
      ensures this.value == value && left == null && right == null
    {
      this.value := value;
      left := null;
      right := null;
    }
  }

  /** The program fails on an element equal to the one before it: nothing is popped, and there is no parent. */
  ghost predicate NoAdjacentEqual(nums: seq<int>) {
    forall i :: 0 < i < |nums| ==> nums[i] != nums[i - 1]
  }

  function Ref(nodes: seq<TreeNode>, k: int): TreeNode? {
    if 0 <= k < |nodes| then nodes[k] else null
  }

  /** The nodes hold the elements in order, and are linked as `lefts` and `rights` say. */
  ghost predicate NodesAre(nodes: seq<TreeNode>, nums: seq<int>, lefts: seq<int>, rights: seq<int>)
    reads nodes
  {
    && |nodes| == |lefts| == |rights| <= |nums|
    && (forall j, k :: 0 <= j < k < |nodes| ==> nodes[j] != nodes[k])
    && forall j :: 0 <= j < |nodes| ==>
         nodes[j].value == nums[j] && nodes[j].left == Ref(nodes, lefts[j]) && nodes[j].right == Ref(nodes, rights[j])
         && lefts[j] < |nodes| && rights[j] < |nodes|
  }

  ghost predicate StackIs(stack: seq<TreeNode>, nodes: seq<TreeNode>, s: seq<nat>) {
    |stack| == |s| && forall q :: 0 <= q < |s| ==> s[q] < |nodes| && stack[q] == nodes[s[q]]
  }

  function Stack(nums: seq<int>, i: nat): seq<nat>
    requires i <= |nums|
  {
    Spine(Rebuilt(nums[..i]), 0)
  }

  lemma StackFacts(nums: seq<int>, i: nat)
    requires 0 < i <= |nums|
    ensures var s := Stack(nums, i); s != [] && s[|s| - 1] == i - 1 && Indices(s, i) && Indices(s, |nums|) && Falls(nums, s)
    ensures Holds(nums, 0, Rebuilt(nums[..i])) && Size(Rebuilt(nums[..i])) == i
  {
    var t := Rebuilt(nums[..i]);
    PreorderOfRebuilt(nums[..i]);
    SizeIsLength(t);
    assert nums[0..i] == nums[..i];
    PreorderHolds(nums, 0, t);
    RebuiltLeftOk(nums[..i]);
    SpineBounds(t, 0);
    SpineFalls(nums, t, 0);
    hide Rebuilt, Spine, Holds;
  }

  /** Popping what is less than `x` from the top of a falling stack leaves what is not less. */
  lemma PopStops(nums: seq<int>, s: seq<nat>, x: int, k: nat)
    requires Falls(nums, s) && k <= |s|
    requires k > 0 ==> nums[s[k - 1]] >= x
    requires forall q :: k <= q < |s| ==> nums[s[q]] < x
    ensures Lead(nums, s, x) == k
  {
    if s != [] && nums[s[0]] >= x {
      assert k > 0;
      PopStops(nums, s[1..], x, k - 1);
    }
  }

  lemma StepDone(nums: seq<int>, i: nat, lefts: seq<int>, rights: seq<int>, lefts': seq<int>, rights': seq<int>)
    requires 0 < i < |nums| && Linked(lefts, rights, 0, Rebuilt(nums[..i])) && |lefts| == i && Indices(Stack(nums, i), |nums|)
    requires LinksAfter(nums, lefts, rights, Stack(nums, i), nums[i], lefts', rights')
    ensures Linked(lefts', rights', 0, Rebuilt(nums[..i + 1]))
    ensures Stack(nums, i + 1) == Stack(nums, i)[..Lead(nums, Stack(nums, i), nums[i])] + [i]
  {
    hide Linked, LinksAfter;
    StackFacts(nums, i);
    NextTree(nums, i);
    hide Rebuilt, Holds, Lead, Spine, Attached, Falls;
    SpineStep(nums, Rebuilt(nums[..i]), 0, nums[i]);
    LinkStep(nums, lefts, rights, Rebuilt(nums[..i]), 0, nums[i], lefts', rights');
  }

  lemma NextTree(nums: seq<int>, i: nat)
    requires 0 < i < |nums|
    ensures Rebuilt(nums[..i + 1]) == Attached(Rebuilt(nums[..i]), nums[i]) && Rebuilt(nums[..i]) != Leaf
  {
    assert nums[..i + 1] == nums[..i] + [nums[i]];
    RebuiltStep(nums[..i], nums[i]);
    hide Attached;
  }

  lemma FirstStep(nums: seq<int>)
    requires nums != []
    ensures Rebuilt(nums[..1]) == Node(Leaf, nums[0], Leaf) && Linked([NONE], [NONE], 0, Rebuilt(nums[..1])) && Stack(nums, 1) == [0]
  {
    var s := nums[..1];
    assert s[1..] == [] && s[0] == nums[0];
    assert Split(s[1..], s[0]) == 0;
    assert Rebuilt(s) == Node(Rebuilt(s[1..][..0]), s[0], Rebuilt(s[1..][0..]));
    assert Rebuilt(s) == Node(Leaf, nums[0], Leaf);
    assert Spine(Node(Leaf, nums[0], Leaf), 0) == [0] + Spine(Leaf, 1);
  }

  lemma FirstNodes(nodes: seq<TreeNode>, nums: seq<int>, stack: seq<TreeNode>)
    requires |nodes| == 1 && nums != [] && nodes[0].value == nums[0] && nodes[0].left == null && nodes[0].right == null && stack == nodes
    ensures NodesAre(nodes, nums, [NONE], [NONE]) && StackIs(stack, nodes, [0])
  {
  }

  /** The nodes represent the tree of the first `i` numbers, and the stack is its open path. */
  ghost predicate Built(nodes: seq<TreeNode>, nums: seq<int>, lefts: seq<int>, rights: seq<int>, stack: seq<TreeNode>, i: nat)
    reads nodes
  {
    && 0 < i <= |nums| && |nodes| == |lefts| == i
    && NodesAre(nodes, nums, lefts, rights) && Linked(lefts, rights, 0, Rebuilt(nums[..i])) && StackIs(stack, nodes, Stack(nums, i))
  }

  lemma FirstBuilt(nodes: seq<TreeNode>, nums: seq<int>, stack: seq<TreeNode>)
    requires |nodes| == 1 && nums != [] && nodes[0].value == nums[0] && nodes[0].left == null && nodes[0].right == null && stack == nodes
    ensures Built(nodes, nums, [NONE], [NONE], stack, 1)
  {
    FirstStep(nums);
    FirstNodes(nodes, nums, stack);
    hide Rebuilt, Stack, Linked, NodesAre, StackIs;
  }

  lemma AdjacentEqual(nums: seq<int>, i: nat)
    requires 0 < i < |nums| && nums[i] == nums[i - 1]
    ensures !NoAdjacentEqual(nums)
  {
  }

  lemma NoneEqual(nums: seq<int>)
    requires forall k :: 0 < k < |nums| ==> nums[k] != nums[k - 1]
    ensures NoAdjacentEqual(nums)
  {
  }

  /** Builds the tree that the numbers stand for, or fails exactly when there is none or two adjacent ones
      are equal. */
  method Build(nums: seq<int>) returns (root: TreeNode?, ghost nodes: seq<TreeNode>, ghost lefts: seq<int>, ghost rights: seq<int>)
    ensures root != null <==> nums != [] && NoAdjacentEqual(nums)
    ensures root != null ==>
              Subtree(root, nodes, nums, lefts, rights, 0, Rebuilt(nums))
  {
    nodes, lefts, rights := [], [], [];
    if nums == [] { return null, nodes, lefts, rights; }
    var first := new TreeNode(nums[0]);
    root := first;
    var stack := [first];
    nodes, lefts, rights := [first], [NONE], [NONE];
    hide Built, NoAdjacentEqual, Subtree, Rebuilt;
    FirstBuilt(nodes, nums, stack);
    var i := 1;
    while i < |nums|
      invariant 1 <= i <= |nums| && |nodes| == i && root == nodes[0] && Built(nodes, nums, lefts, rights, stack, i)
      invariant forall j :: 0 <= j < i ==> fresh(nodes[j])
      invariant forall k :: 0 < k < i ==> nums[k] != nums[k - 1]
    {
      var node := new TreeNode(nums[i]);
      var ok;
      stack, ok, lefts, rights := Step(stack, node, i, nodes, nums, lefts, rights);
      if !ok { AdjacentEqual(nums, i); return null, nodes, lefts, rights; }
      nodes := nodes + [node];
      i := i + 1;
    }
    NoneEqual(nums);
    WholeTree(root, nodes, nums, lefts, rights, stack);
  }

  /** `root` is the node numbered `j`, and the nodes from there on represent `t`. */
  ghost predicate Subtree(root: TreeNode?, nodes: seq<TreeNode>, nums: seq<int>, lefts: seq<int>, rights: seq<int>, j: nat, t: Tree)
    reads nodes
  {
    && NodesAre(nodes, nums, lefts, rights) && Linked(lefts, rights, j, t) && Holds(nums, j, t) && |nodes| == |nums|
    && root == if t == Leaf then null else Ref(nodes, j)
  }

  lemma WholeTree(root: TreeNode?, nodes: seq<TreeNode>, nums: seq<int>, lefts: seq<int>, rights: seq<int>, stack: seq<TreeNode>)
    requires Built(nodes, nums, lefts, rights, stack, |nums|) && root == nodes[0]
    ensures Subtree(root, nodes, nums, lefts, rights, 0, Rebuilt(nums))
  {
    StackFacts(nums, |nums|);
    assert nums[..|nums|] == nums;
    assert Rebuilt(nums) != Leaf;
    hide Rebuilt, NodesAre, Linked, Holds, Falls, StackIs, Indices;
  }

  lemma Children(root: TreeNode?, nodes: seq<TreeNode>, nums: seq<int>, lefts: seq<int>, rights: seq<int>, j: nat, t: Tree)
    requires Subtree(root, nodes, nums, lefts, rights, j, t)
    ensures root == null <==> t == Leaf
    ensures root != null ==>
              && root.value == t.value && Subtree(root.left, nodes, nums, lefts, rights, j + 1, t.left)
              && Subtree(root.right, nodes, nums, lefts, rights, j + 1 + Size(t.left), t.right)
  {
  }

  /** One pass of the loop. */
  method Step(stack: seq<TreeNode>, node: TreeNode, ghost i: nat, ghost nodes: seq<TreeNode>, ghost nums: seq<int>, ghost lefts: seq<int>, ghost rights: seq<int>)
    returns (stack': seq<TreeNode>, ok: bool, ghost lefts': seq<int>, ghost rights': seq<int>)
    requires Built(nodes, nums, lefts, rights, stack, i) && i < |nums|
    requires node !in nodes && node.value == nums[i] && node.left == null && node.right == null
    modifies nodes
    ensures ok <==> nums[i] != nums[i - 1]
    ensures ok ==> Built(nodes + [node], nums, lefts', rights', stack', i + 1)
  {
    ghost var s := Stack(nums, i);
    StackFacts(nums, i);
    TopValue(stack, nodes, nums, lefts, rights, s, node.value);
    hide Rebuilt, Stack, Linked, NodesAre, StackIs, Falls, Indices, LinksAfter, Holds, Lead;
    assert CanPlace(nodes, nums, lefts, rights, s, stack, node);
    ok := true;
    if node.value < stack[|stack| - 1].value {
      stack', lefts', rights' := PlaceLeft(stack, node, nodes, nums, lefts, rights, s);
    } else {
      stack', ok, lefts', rights' := PlaceRight(stack, node, nodes, nums, lefts, rights, s);
    }
    if ok { StepDone(nums, i, lefts, rights, lefts', rights'); }
  }

  /** The nodes, their links and the stack after a step that adds `node`. */
  ghost predicate Placed(nodes: seq<TreeNode>, nums: seq<int>, lefts: seq<int>, rights: seq<int>, s: seq<nat>, node: TreeNode,
                         stack': seq<TreeNode>, lefts': seq<int>, rights': seq<int>)
    requires |nodes| < |nums| && Indices(s, |nums|)
    reads nodes, node
  {
    && |lefts'| == |rights'| == |nodes| + 1
    && LinksAfter(nums, lefts, rights, s, nums[|nodes|], lefts', rights') && NodesAre(nodes + [node], nums, lefts', rights')
    && StackIs(stack', nodes + [node], Pushed(s, Lead(nums, s, nums[|nodes|]), |nodes|))
  }

  function Pushed(s: seq<nat>, k: nat, i: nat): seq<nat>
    requires k <= |s|
  {
    s[..k] + [i]
  }

  ghost predicate CanPlace(nodes: seq<TreeNode>, nums: seq<int>, lefts: seq<int>, rights: seq<int>, s: seq<nat>, stack: seq<TreeNode>, node: TreeNode)
    reads nodes, node
  {
    && NodesAre(nodes, nums, lefts, rights) && StackIs(stack, nodes, s) && Falls(nums, s) && Indices(s, |nums|)
    && s != [] && s[|s| - 1] == |nodes| - 1 && |nodes| < |nums|
    && node !in nodes && node.value == nums[|nodes|] && node.left == null && node.right == null
  }

  /** The new node becomes the left child of the node on top of the stack. */
  method PlaceLeft(stack: seq<TreeNode>, node: TreeNode, ghost nodes: seq<TreeNode>, ghost nums: seq<int>, ghost lefts: seq<int>, ghost rights: seq<int>, ghost s: seq<nat>)
    returns (stack': seq<TreeNode>, ghost lefts': seq<int>, ghost rights': seq<int>)
    requires CanPlace(nodes, nums, lefts, rights, s, stack, node) && node.value < nums[|nodes| - 1]
    modifies nodes
    ensures Placed(nodes, nums, lefts, rights, s, node, stack', lefts', rights')
  {
    TopValue(stack, nodes, nums, lefts, rights, s, node.value);
    Lengths(nodes, nums, lefts, rights, s, stack);
    hide NodesAre, Falls, Lead;
    LinkLeft(nodes, nums, lefts, rights, stack[|stack| - 1], s[|s| - 1], node);
    lefts', rights' := lefts[s[|s| - 1] := |nodes|] + [NONE], rights + [NONE];
    stack' := stack + [node];
  }

  /** The new node becomes the right child of the last node that has to go; there is none when the element
      equals the one before it. */
  method PlaceRight(stack: seq<TreeNode>, node: TreeNode, ghost nodes: seq<TreeNode>, ghost nums: seq<int>, ghost lefts: seq<int>, ghost rights: seq<int>, ghost s: seq<nat>)
    returns (stack': seq<TreeNode>, ok: bool, ghost lefts': seq<int>, ghost rights': seq<int>)
    requires CanPlace(nodes, nums, lefts, rights, s, stack, node) && node.value >= nums[|nodes| - 1]
    modifies nodes
    ensures ok <==> nums[|nodes|] != nums[|nodes| - 1]
    ensures ok ==> Placed(nodes, nums, lefts, rights, s, node, stack', lefts', rights')
  {
    Lengths(nodes, nums, lefts, rights, s, stack);
    hide NodesAre, Falls, Lead, Placed, StackIs;
    lefts', rights' := lefts, rights;
    var parent: TreeNode?;
    var rest;
    rest, parent := Pop(stack, node.value);
    PoppedIsLead(stack, nodes, nums, lefts, rights, s, node.value, |rest|);
    if parent == null { return rest, false, lefts', rights'; }
    LinkRight(nodes, nums, lefts, rights, parent, s[|rest|], node);
    lefts', rights' := lefts + [NONE], rights[s[|rest|] := |nodes|] + [NONE];
    stack' := rest + [node];
    PlacedRight(nodes, nums, lefts, rights, s, node, stack, stack', lefts', rights', |rest|);
    ok := true;
  }

  lemma PlacedRight(nodes: seq<TreeNode>, nums: seq<int>, lefts: seq<int>, rights: seq<int>, s: seq<nat>, node: TreeNode,
                    stack: seq<TreeNode>, stack': seq<TreeNode>, lefts': seq<int>, rights': seq<int>, k: nat)
    requires |nodes| < |nums| && Indices(s, |nums|) && k < |s| && k == Lead(nums, s, nums[|nodes|]) && Indices(s, |nodes|)
    requires |lefts| == |rights| == |nodes| && StackIs(stack, nodes, s) && stack' == stack[..k] + [node]
    requires lefts' == lefts + [NONE] && rights' == rights[s[k] := |nodes|] + [NONE] && NodesAre(nodes + [node], nums, lefts', rights')
    ensures Placed(nodes, nums, lefts, rights, s, node, stack', lefts', rights')
  {
    hide NodesAre, Lead;
  }

  lemma Lengths(nodes: seq<TreeNode>, nums: seq<int>, lefts: seq<int>, rights: seq<int>, s: seq<nat>, stack: seq<TreeNode>)
    requires NodesAre(nodes, nums, lefts, rights) && StackIs(stack, nodes, s)
    ensures |lefts| == |rights| == |nodes| && Indices(s, |nodes|) && |stack| == |s|
    ensures forall q :: 0 <= q < |s| ==> stack[q] == nodes[s[q]]
  {
  }

  lemma TopValue(stack: seq<TreeNode>, nodes: seq<TreeNode>, nums: seq<int>, lefts: seq<int>, rights: seq<int>, s: seq<nat>, x: int)
    requires NodesAre(nodes, nums, lefts, rights) && StackIs(stack, nodes, s) && Falls(nums, s) && Indices(s, |nums|)
    requires s != [] && s[|s| - 1] == |nodes| - 1
    ensures stack[|stack| - 1].value == nums[|nodes| - 1]
    ensures x <= nums[|nodes| - 1] ==> Lead(nums, s, x) == |s|
  {
    hide NodesAre, StackIs, Falls, Lead;
    StackValues(stack, nodes, nums, lefts, rights, s);
    if x <= nums[|nodes| - 1] { PopStops(nums, s, x, |s|); }
  }

  method LinkLeft(ghost nodes: seq<TreeNode>, ghost nums: seq<int>, ghost lefts: seq<int>, ghost rights: seq<int>, parent: TreeNode, ghost p: nat, node: TreeNode)
    requires NodesAre(nodes, nums, lefts, rights) && p < |nodes| < |nums| && parent == nodes[p]
    requires node !in nodes && node.value == nums[|nodes|] && node.left == null && node.right == null
    modifies parent`left
    ensures NodesAre(nodes + [node], nums, lefts[p := |nodes|] + [NONE], rights + [NONE])
  {
    parent.left := node;
  }

  method LinkRight(ghost nodes: seq<TreeNode>, ghost nums: seq<int>, ghost lefts: seq<int>, ghost rights: seq<int>, parent: TreeNode, ghost p: nat, node: TreeNode)
    requires NodesAre(nodes, nums, lefts, rights) && p < |nodes| < |nums| && parent == nodes[p]
    requires node !in nodes && node.value == nums[|nodes|] && node.left == null && node.right == null
    modifies parent`right
    ensures NodesAre(nodes + [node], nums, lefts + [NONE], rights[p := |nodes|] + [NONE])
  {
    parent.right := node;
  }

  /** The inner loop: pops what is less than `x`; `parent` is the last node popped. */
  method Pop(stack: seq<TreeNode>, x: int) returns (rest: seq<TreeNode>, parent: TreeNode?)
    ensures |rest| <= |stack| && rest == stack[..|rest|] && (rest != [] ==> stack[|rest| - 1].value >= x)
    ensures forall q :: |rest| <= q < |stack| ==> stack[q].value < x
    ensures parent == if |rest| < |stack| then stack[|rest|] else null
  {
    var n := |stack|;
    parent := null;
    while n > 0 && stack[n - 1].value < x
      invariant 0 <= n <= |stack| && parent == if n < |stack| then stack[n] else null
      invariant forall q :: n <= q < |stack| ==> stack[q].value < x
    {
      parent := stack[n - 1];
      n := n - 1;
    }
    rest := stack[..n];
  }

  /** What is popped is what does not belong to the lead of the stack; nothing is, for an element equal to
      the one before it, and only then. */
  lemma PoppedIsLead(stack: seq<TreeNode>, nodes: seq<TreeNode>, nums: seq<int>, lefts: seq<int>, rights: seq<int>, s: seq<nat>, x: int, n: nat)
    requires NodesAre(nodes, nums, lefts, rights) && StackIs(stack, nodes, s) && Falls(nums, s) && Indices(s, |nums|) && n <= |stack|
    requires n > 0 ==> stack[n - 1].value >= x
    requires forall q :: n <= q < |stack| ==> stack[q].value < x
    requires s != [] && s[|s| - 1] == |nodes| - 1
    ensures Lead(nums, s, x) == n && stack[|stack| - 1].value == nums[|nodes| - 1]
    ensures n == |stack| <==> nums[|nodes| - 1] >= x
  {
    hide NodesAre, StackIs, Falls, Lead;
    StackValues(stack, nodes, nums, lefts, rights, s);
    PopStops(nums, s, x, n);
  }

  lemma StackValues(stack: seq<TreeNode>, nodes: seq<TreeNode>, nums: seq<int>, lefts: seq<int>, rights: seq<int>, s: seq<nat>)
    requires NodesAre(nodes, nums, lefts, rights) && StackIs(stack, nodes, s)
    ensures |stack| == |s| && forall q :: 0 <= q < |s| ==> s[q] < |nums| && stack[q].value == nums[s[q]]
  {
  }

  /** `postorder`. */
  method PostorderOf(root: TreeNode?, ghost nodes: seq<TreeNode>, ghost nums: seq<int>, ghost lefts: seq<int>, ghost rights: seq<int>, ghost j: nat, ghost t: Tree)
    returns (result: seq<int>)
    requires Subtree(root, nodes, nums, lefts, rights, j, t)
    ensures result == Postorder(t)
    decreases t
  {
    hide Subtree;
    Children(root, nodes, nums, lefts, rights, j, t);
    if root == null {
      return [];
    }
    var left := PostorderOf(root.left, nodes, nums, lefts, rights, j + 1, t.left);
    var right := PostorderOf(root.right, nodes, nums, lefts, rights, j + 1 + Size(t.left), t.right);
    result := left + right + [root.value];
  }

  /** The whole program prints the postorder of the tree that the numbers stand for, or fails when it cannot
      be built; for the preorder of a search tree, that is the postorder of this tree. */
  method Run(nums: seq<int>) returns (ok: bool, output: seq<int>)
    ensures ok <==> nums != [] && NoAdjacentEqual(nums)
    ensures ok ==> output == Postorder(Rebuilt(nums))
    ensures forall t :: Bst(t) && t != Leaf && Preorder(t) == nums ==> ok && output == Postorder(t)
  {
    ghost var nodes, lefts, rights;
    var root;
    root, nodes, lefts, rights := Build(nums);
    hide Subtree, Rebuilt, Postorder;
    forall t | Bst(t) && t != Leaf && Preorder(t) == nums ensures nums != [] && NoAdjacentEqual(nums) && Rebuilt(nums) == t {
      DistinctKeys(t);
      RebuiltIsInverse(t);
    }
    ok, output := root != null, [];
    if ok {
      output := PostorderOf(root, nodes, nums, lefts, rights, 0, Rebuilt(nums));
    }
  }
}
