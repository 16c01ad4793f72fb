/** Printing a binary search tree in postorder with one stack and the node printed last. */
module PostorderStack {
  /** A node; the traversal only reads it. */
  class BstNode {
    const item: int
    const left: BstNode?
    const right: BstNode?

    constructor (item: int, left: BstNode?, right: BstNode?)
      ensures this.item == item && this.left == left && this.right == right
    {
      this.item, this.left, this.right := item, left, right;
    }
  }

  /** A tree of nodes, told by the nodes themselves. */
  datatype Shape = Leaf | Node(left: Shape, at: BstNode, right: Shape)

  function RootOf(t: Shape): BstNode? {
    match t case Leaf => null case Node(_, n, _) => n
  }

  /** The nodes in postorder. */
  function Postorder(t: Shape): seq<BstNode> {
    match t case Leaf => [] case Node(l, n, r) => Postorder(l) + Postorder(r) + [n]
  }

  function Size(t: Shape): nat {
    match t case Leaf => 0 case Node(l, _, r) => 1 + Size(l) + Size(r)
  }

  function Items(s: seq<BstNode>): seq<int> {
    seq(|s|, i requires 0 <= i < |s| => s[i].item)
  }

  /** The links in memory are those of the tree. */
  ghost predicate Links(t: Shape) {
    match t
    case Leaf => true
    case Node(l, n, r) => n.left == RootOf(l) && n.right == RootOf(r) && Links(l) && Links(r)
  }

  /** No node is reached on two ways. */
  ghost predicate Distinct(s: seq<BstNode>) {
    forall i, j :: 0 <= i < j < |s| ==> s[i] != s[j]
  }

  // ----- the stack

  class StackNode {
    const data: BstNode
    const next: StackNode?

    constructor (data: BstNode, next: StackNode?)
      ensures this.data == data && this.next == next
    {
      this.data, this.next := data, next;
    }
  }

  class Stack {
    var top: StackNode?

    constructor ()
      ensures top == null
    {
      top := null;
    }

    method Push(node: BstNode)
      modifies this
      ensures top != null && top.data == node && top.next == old(top)
    {
      top := new StackNode(node, top);
    }

    method Pop() returns (node: BstNode?)
      modifies this
      ensures old(top) == null ==> top == null && node == null
      ensures old(top) != null ==> top == old(top).next && node == old(top).data
    {
      node := null;
      if top != null {
        node := top.data;
        top := top.next;
      }
    }
  }

  /** The open subtrees, innermost first; `inRight` says which child is being printed. */
  datatype Frames = Bottom | Frame(s: Shape, inRight: bool, below: Frames)

  ghost predicate StackIs(top: StackNode?, f: Frames)
    decreases f
  {
    match f
    case Bottom => top == null
    case Frame(s, _, below) => s.Node? && top != null && top.data == s.at && StackIs(top.next, below)
  }

  function Child(f: Frames): Shape {
    if f.Frame? && f.s.Node? then (if f.inRight then f.s.right else f.s.left) else Leaf
  }

  /** Each open subtree is the child at which the next one stands. */
  ghost predicate Nested(f: Frames) {
    match f
    case Bottom => true
    case Frame(s, inRight, below) =>
      s.Node? && Nested(below) && (inRight ==> s.right != Leaf) && (below.Frame? ==> s == Child(below))
  }

  /** What is still to come after the child being printed. */
  function Rest(f: Frames): seq<BstNode> {
    match f
    case Bottom => []
    case Frame(s, inRight, below) =>
      if s.Leaf? then Rest(below)
      else (if inRight then [] else Postorder(s.right)) + [s.at] + Rest(below)
  }

  /** A bound on the passes still to be made. */
  function Work(c: Shape, f: Frames): nat {
    3 * Size(c) + WorkOf(f)
  }

  function WorkOf(f: Frames): nat {
    match f
    case Bottom => 0
    case Frame(s, inRight, below) => (if inRight || s.Leaf? then 1 else 2 + 3 * Size(s.right)) + WorkOf(below)
  }

  /** Before the node `save`, root of `c`; when there is none, the innermost child has been printed, and its
      root is the node printed last. */
  ghost predicate Between(t: Shape, save: BstNode?, last: BstNode?, c: Shape, f: Frames, done: seq<BstNode>) {
    && save == RootOf(c) && Nested(f) && done + Postorder(c) + Rest(f) == Postorder(t)
    && last == (if done == [] then null else done[|done| - 1])
    && (f.Frame? ==> if c.Node? then c == Child(f) else f.inRight ==> last == RootOf(Child(f)))
  }

  /** The links of whatever is still to be visited. */
  ghost predicate LinksOf(c: Shape, f: Frames)
    decreases f
  {
    && Links(c)
    && match f
       case Bottom => true
       case Frame(s, _, below) => LinksOf(s, below)
  }

  lemma GoLeft(t: Shape, save: BstNode?, last: BstNode?, c: Shape, f: Frames, done: seq<BstNode>)
    requires Between(t, save, last, c, f, done) && LinksOf(c, f) && save != null
    ensures Between(t, save.left, last, c.left, Frame(c, false, f), done) && LinksOf(c.left, Frame(c, false, f))
    ensures Work(c.left, Frame(c, false, f)) < Work(c, f)
  {
    assert done + Postorder(c.left) + Rest(Frame(c, false, f)) == done + Postorder(c) + Rest(f);
  }

  lemma GoRight(t: Shape, last: BstNode?, s: Shape, below: Frames, done: seq<BstNode>)
    requires Between(t, null, last, Leaf, Frame(s, false, below), done) && LinksOf(Leaf, Frame(s, false, below)) && s.right != Leaf
    ensures Between(t, s.at.right, last, s.right, Frame(s, true, below), done) && LinksOf(s.right, Frame(s, true, below))
    ensures Work(s.right, Frame(s, true, below)) < Work(Leaf, Frame(s, false, below))
  {
    assert done + Postorder(s.right) + Rest(Frame(s, true, below)) == done + Postorder(Leaf) + Rest(Frame(s, false, below));
  }

  lemma GoUp(t: Shape, last: BstNode?, s: Shape, inRight: bool, below: Frames, done: seq<BstNode>)
    requires Between(t, null, last, Leaf, Frame(s, inRight, below), done) && LinksOf(Leaf, Frame(s, inRight, below))
    requires inRight || s.right == Leaf
    ensures Between(t, null, s.at, Leaf, below, done + [s.at]) && LinksOf(Leaf, below)
    ensures Work(Leaf, below) < Work(Leaf, Frame(s, inRight, below))
  {
    assert done + [s.at] + Postorder(Leaf) + Rest(below) == done + Postorder(Leaf) + Rest(Frame(s, inRight, below));
  }

  /** The node printed last is the right child exactly when the right subtree has been printed. */
  lemma LastTells(t: Shape, last: BstNode?, s: Shape, inRight: bool, below: Frames, done: seq<BstNode>)
    requires Between(t, null, last, Leaf, Frame(s, inRight, below), done) && Distinct(Postorder(t)) && s.right != Leaf
    ensures last == RootOf(s.right) <==> inRight
  {
    var all, rest, k := Postorder(t), Rest(Frame(s, inRight, below)), |Postorder(s.right)| - 1;
    assert Postorder(s.right)[k] == s.right.at;
    if !inRight {
      assert rest == Postorder(s.right) + ([s.at] + Rest(below)) && all == done + rest;
      assert all[|done| + k] == rest[k] == s.right.at;
      if done != [] {
        assert all[|done| - 1] == last;
      }
    }
  }

  lemma Start(t: Shape)
    requires Links(t)
    ensures Between(t, RootOf(t), null, t, Bottom, []) && LinksOf(t, Bottom) && Items([]) == []
  {
  }

  lemma Finish(t: Shape, save: BstNode?, last: BstNode?, c: Shape, f: Frames, done: seq<BstNode>)
    requires Between(t, save, last, c, f, done) && save == null && f == Bottom
    ensures done == Postorder(t)
  {
  }

  lemma BetweenFacts(t: Shape, save: BstNode?, last: BstNode?, c: Shape, f: Frames, done: seq<BstNode>)
    requires Between(t, save, last, c, f, done)
    ensures save == RootOf(c) && (f.Frame? ==> f.s.Node? && (f.inRight ==> f.s.right != Leaf))
  {
  }

  lemma LinkFacts(c: Shape, f: Frames)
    requires LinksOf(c, f) && f.Frame? && f.s.Node?
    ensures f.s.at.right == RootOf(f.s.right)
  {
  }

  lemma ItemsOfConcat(s: seq<BstNode>, n: BstNode)
    ensures Items(s + [n]) == Items(s) + [n.item]
  {
  }

  /** `postOrderIterativeS1` prints what the recursive walk prints. */
  method PostOrderIterativeS1(root: BstNode?, ghost t: Shape) returns (output: seq<int>)
    requires root == RootOf(t) && Links(t) && Distinct(Postorder(t))
    ensures output == Items(Postorder(t))
  {
    hide Links, LinksOf, Between, Distinct, Postorder, Rest, Nested, Items;
    var stat := new Stack();
    var save, last := root, null;
    output := [];
    ghost var c, f, done := t, Bottom, [];
    Start(t);
    while save != null || stat.top != null
      invariant StackIs(stat.top, f) && Between(t, save, last, c, f, done) && LinksOf(c, f) && output == Items(done)
      decreases Work(c, f)
    {
      while save != null
        invariant StackIs(stat.top, f) && Between(t, save, last, c, f, done) && LinksOf(c, f)
        invariant save != null || stat.top != null
        decreases Work(c, f)
      {
        GoLeft(t, save, last, c, f, done);
        BetweenFacts(t, save, last, c, f, done);
        stat.Push(save);
        save := save.left;
        c, f := c.left, Frame(c, false, f);
      }
      BetweenFacts(t, save, last, c, f, done);
      LinkFacts(c, f);
      var toppeek := stat.top.data;
      if f.s.right != Leaf { LastTells(t, last, f.s, f.inRight, f.below, done); }
      if toppeek.right != null && last != toppeek.right {
        GoRight(t, last, f.s, f.below, done);
        save := toppeek.right;
        c, f := f.s.right, Frame(f.s, true, f.below);
      } else {
        GoUp(t, last, f.s, f.inRight, f.below, done);
        ItemsOfConcat(done, toppeek);
        output := output + [toppeek.item];
        last := stat.Pop();
        done, f := done + [toppeek], f.below;
      }
    }
    Finish(t, save, last, c, f, done);
  }
}
