/**
 * The binary search tree behind the Iterator demos: `Node.addChild`,
 * `BinaryTree.insert` and `__len__`. The tree is a value; the nodes the
 * source links by reference are its subtrees.
 */
module Trees {
  import opened Outcomes

  /** A tree of integer-valued nodes; `Leaf` is Python's `None` child. */
  datatype Tree = Leaf | Node(left: Tree, value: int, right: Tree)

  /** `Node.__eq__`: two nodes are equal when their values are. */
  predicate NodeEq(a: Tree, b: Tree)
    requires a.Node? && b.Node?
  {
    a.value == b.value
  }

  /** `Node.__gt__`. */
  predicate NodeGt(a: Tree, b: Tree)
    requires a.Node? && b.Node?
  {
    a.value > b.value
  }

  /** `Node.__lt__`. */
  predicate NodeLt(a: Tree, b: Tree)
    requires a.Node? && b.Node?
  {
    a.value < b.value
  }

  /** `Node.__ge__`, written as greater or equal: the order of the values. */
  function NodeGe(a: Tree, b: Tree): (r: bool)
    requires a.Node? && b.Node?
    ensures r <==> a.value >= b.value
    ensures r <==> !NodeLt(a, b)
  {
    NodeGt(a, b) || NodeEq(a, b)
  }

  /** `Node.__le__`, written as less or equal: the order of the values. */
  function NodeLe(a: Tree, b: Tree): (r: bool)
    requires a.Node? && b.Node?
    ensures r <==> a.value <= b.value
    ensures r <==> !NodeGt(a, b)
  {
    NodeLt(a, b) || NodeEq(a, b)
  }

  /** `Node.__ne__`, written as not equal: one node is less or greater. */
  function NodeNe(a: Tree, b: Tree): (r: bool)
    requires a.Node? && b.Node?
    ensures r <==> NodeLt(a, b) || NodeGt(a, b)
  {
    !NodeEq(a, b)
  }

  /** Exactly one of less, equal and greater holds between two nodes. */
  lemma NodeTrichotomy(a: Tree, b: Tree)
    requires a.Node? && b.Node?
    ensures NodeLt(a, b) || NodeEq(a, b) || NodeGt(a, b)
    ensures !(NodeLt(a, b) && NodeEq(a, b)) && !(NodeLt(a, b) && NodeGt(a, b)) && !(NodeEq(a, b) && NodeGt(a, b))
  {
  }

  /** The number of nodes. */
  function Size(t: Tree): nat
  {
    match t
    case Leaf => 0
    case Node(l, _, r) => Size(l) + 1 + Size(r)
  }

  /** The values stored in the tree, with their multiplicities. */
  function Elements(t: Tree): multiset<int>
  {
    match t
    case Leaf => multiset{}
    case Node(l, v, r) => Elements(l) + multiset{v} + Elements(r)
  }

  /** Reference in-order traversal: left subtree, node, right subtree */
  function InOrder(t: Tree): (s: seq<int>)
    ensures |s| == Size(t)
  {
    match t
    case Leaf => []
    case Node(l, v, r) => InOrder(l) + [v] + InOrder(r)
  }

  /** Reference pre-order traversal: node, left subtree, right subtree */
  function PreOrder(t: Tree): (s: seq<int>)
    ensures |s| == Size(t)
  {
    match t
    case Leaf => []
    case Node(l, v, r) => [v] + PreOrder(l) + PreOrder(r)
  }

  /** Reference post-order traversal: left subtree, right subtree, node */
  function PostOrder(t: Tree): (s: seq<int>)
    ensures |s| == Size(t)
  {
    match t
    case Leaf => []
    case Node(l, v, r) => PostOrder(l) + PostOrder(r) + [v]
  }

  /** The in-order walk lists every node of the tree exactly once. */
  lemma {:induction false} InOrderElements(t: Tree)
    ensures multiset(InOrder(t)) == Elements(t)
  {
    match t
    case Leaf =>
    case Node(l, v, r) =>
      InOrderElements(l);
      InOrderElements(r);
  }

  /** The pre-order walk lists every node of the tree exactly once. */
  lemma {:induction false} PreOrderElements(t: Tree)
    ensures multiset(PreOrder(t)) == Elements(t)
  {
    match t
    case Leaf =>
    case Node(l, v, r) =>
      PreOrderElements(l);
      PreOrderElements(r);
  }

  /** The post-order walk lists every node of the tree exactly once. */
  lemma {:induction false} PostOrderElements(t: Tree)
    ensures multiset(PostOrder(t)) == Elements(t)
  {
    match t
    case Leaf =>
    case Node(l, v, r) =>
      PostOrderElements(l);
      PostOrderElements(r);
  }

  /** Every value in `t` is strictly less than `v`. */
  ghost predicate AllBelow(t: Tree, v: int)
  {
    match t
    case Leaf => true
    case Node(l, w, r) => w < v && AllBelow(l, v) && AllBelow(r, v)
  }

  /** Every value in `t` is equal to or greater than `v`. */
  ghost predicate AllAtLeast(t: Tree, v: int)
  {
    match t
    case Leaf => true
    case Node(l, w, r) => v <= w && AllAtLeast(l, v) && AllAtLeast(r, v)
  }

  /**
   * The ordering the insertion keeps: everything in a left subtree is
   * strictly smaller than its node, everything in a right subtree is equal
   * or greater.
   */
  ghost predicate IsBst(t: Tree)
  {
    match t
    case Leaf => true
    case Node(l, v, r) => AllBelow(l, v) && AllAtLeast(r, v) && IsBst(l) && IsBst(r)
  }

  /**
   * `Node.addChild`, together with the empty-root case of `insert`: descend
   * left when the new value is strictly less than the node's, right
   * otherwise, and hang a new node where the descent meets an empty child.
   */
  function AddChild(t: Tree, x: int): (r: Tree)
    ensures r.Node?
    ensures Size(r) == Size(t) + 1
    ensures Elements(r) == Elements(t) + multiset{x}
  {
    match t
    case Leaf => Node(Leaf, x, Leaf)
    case Node(l, v, rt) =>
      if x < v then Node(AddChild(l, x), v, rt) else Node(l, v, AddChild(rt, x))
  }

  lemma {:induction false} AddChildBelow(t: Tree, x: int, v: int)
    requires AllBelow(t, v) && x < v
    ensures AllBelow(AddChild(t, x), v)
  {
    match t
    case Leaf =>
    case Node(l, w, r) => if x < w { AddChildBelow(l, x, v); } else { AddChildBelow(r, x, v); }
  }

  lemma {:induction false} AddChildAtLeast(t: Tree, x: int, v: int)
    requires AllAtLeast(t, v) && v <= x
    ensures AllAtLeast(AddChild(t, x), v)
  {
    match t
    case Leaf =>
    case Node(l, w, r) => if x < w { AddChildAtLeast(l, x, v); } else { AddChildAtLeast(r, x, v); }
  }

  /** Inserting into a search tree gives a search tree. */
  lemma {:induction false} AddChildKeepsBst(t: Tree, x: int)
    requires IsBst(t)
    ensures IsBst(AddChild(t, x))
  {
    match t
    case Leaf =>
    case Node(l, v, r) =>
      if x < v {
        AddChildKeepsBst(l, x);
        AddChildBelow(l, x, v);
      } else {
        AddChildKeepsBst(r, x);
        AddChildAtLeast(r, x, v);
      }
  }

  /**
   * Where `addChild` sends a node: one that compares less than the node
   * it is added to joins the left subtree and leaves the right one alone;
   * one that compares greater or equal joins the right subtree and leaves
   * the left one alone.
   */
  lemma AddChildRoutes(t: Tree, x: int)
    requires t.Node?
    ensures AddChild(t, x).value == t.value
    ensures NodeLt(Node(Leaf, x, Leaf), t) ==>
      Elements(AddChild(t, x).left) == Elements(t.left) + multiset{x} && AddChild(t, x).right == t.right
    ensures NodeGe(Node(Leaf, x, Leaf), t) ==>
      Elements(AddChild(t, x).right) == Elements(t.right) + multiset{x} && AddChild(t, x).left == t.left
  {
  }

  /** Non-decreasing order. */
  ghost predicate Sorted(s: seq<int>)
  {
    forall i, j | 0 <= i < j < |s| :: s[i] <= s[j]
  }

  lemma {:induction false} InOrderBelow(t: Tree, v: int)
    requires AllBelow(t, v)
    ensures forall i | 0 <= i < |InOrder(t)| :: InOrder(t)[i] < v
  {
    match t
    case Leaf =>
    case Node(l, _, r) => InOrderBelow(l, v); InOrderBelow(r, v);
  }

  lemma {:induction false} InOrderAtLeast(t: Tree, v: int)
    requires AllAtLeast(t, v)
    ensures forall i | 0 <= i < |InOrder(t)| :: v <= InOrder(t)[i]
  {
    match t
    case Leaf =>
    case Node(l, _, r) => InOrderAtLeast(l, v); InOrderAtLeast(r, v);
  }

  /** The in-order traversal of a search tree is sorted. */
  lemma {:induction false} InOrderSorted(t: Tree)
    requires IsBst(t)
    ensures Sorted(InOrder(t))
  {
    match t
    case Leaf =>
    case Node(l, v, r) =>
      InOrderSorted(l);
      InOrderSorted(r);
      InOrderBelow(l, v);
      InOrderAtLeast(r, v);
      var a, b := InOrder(l), InOrder(r);
      var s := a + [v] + b;
      forall i, j | 0 <= i < j < |s| ensures s[i] <= s[j] {
        if j < |a| {
          assert s[i] == a[i] && s[j] == a[j];
        } else if i >= |a| + 1 {
          assert s[i] == b[i - |a| - 1] && s[j] == b[j - |a| - 1];
        } else if i < |a| {
          assert s[i] == a[i];
          assert s[j] == v || s[j] == b[j - |a| - 1];
        } else {
          assert s[i] == v && s[j] == b[j - |a| - 1];
        }
      }
  }

  /** The tree built by inserting `xs` one after the other into `t`. */
  function InsertAll(t: Tree, xs: seq<int>): (r: Tree)
    ensures Size(r) == Size(t) + |xs|
    ensures Elements(r) == Elements(t) + multiset(xs)
    decreases xs
  {
    if xs == [] then t
    else
      assert xs == [xs[0]] + xs[1..];
      InsertAll(AddChild(t, xs[0]), xs[1..])
  }

  /** Any insertion order yields a search tree whose in-order walk is sorted. */
  lemma {:induction false} InsertAllSorted(t: Tree, xs: seq<int>)
    requires IsBst(t)
    ensures IsBst(InsertAll(t, xs))
    ensures Sorted(InOrder(InsertAll(t, xs)))
    decreases xs
  {
    if xs == [] {
      InOrderSorted(t);
    } else {
      AddChildKeepsBst(t, xs[0]);
      InsertAllSorted(AddChild(t, xs[0]), xs[1..]);
    }
  }

  /** A route from the root: `false` is a step to the left child, `true` to the right. */
  type Path = seq<bool>

  /** The subtree at a route, if the route stays inside the tree. */
  function Subtree(t: Tree, p: Path): Option<Tree>
  {
    if p == [] then Some(t)
    else match t
      case Leaf => None
      case Node(l, _, r) => Subtree(if p[0] then r else l, p[1..])
  }

  /** The route `addChild` descends for value `x`, down to an empty child. */
  function SearchPath(t: Tree, x: int): Path
  {
    match t
    case Leaf => []
    case Node(l, v, r) =>
      if x < v then [false] + SearchPath(l, x) else [true] + SearchPath(r, x)
  }

  /**
   * The older variant of `addChild` also sets the new node's `parent`. The
   * new node sits, as a childless node, at the end of the search route,
   * which ends at an empty place of the old tree; its parent is the node one
   * step up the route, and the last step goes right exactly when the value
   * is not less than the parent's.
   */
  lemma AddChildAttachesLeaf(t: Tree, x: int)
    ensures Subtree(t, SearchPath(t, x)) == Some(Leaf)
    ensures Subtree(AddChild(t, x), SearchPath(t, x)) == Some(Node(Leaf, x, Leaf))
    ensures var p := SearchPath(t, x);
      |p| > 0 ==>
        var parent := Subtree(t, p[..|p| - 1]);
        parent.Some? && parent.value.Node? && p[|p| - 1] == (parent.value.value <= x)
  {
    SearchEndsAtLeaf(t, x);
    SearchEndsAtNew(t, x);
    SearchParent(t, x);
  }

  /** The search route ends at an empty place of the old tree. */
  lemma {:induction false} SearchEndsAtLeaf(t: Tree, x: int)
    ensures Subtree(t, SearchPath(t, x)) == Some(Leaf)
  {
    match t
    case Leaf =>
    case Node(l, v, r) =>
      var c := if x < v then l else r;
      SearchEndsAtLeaf(c, x);
      assert SearchPath(t, x)[1..] == SearchPath(c, x);
  }

  /** In the new tree the same route ends at the new childless node. */
  lemma {:induction false} SearchEndsAtNew(t: Tree, x: int)
    ensures Subtree(AddChild(t, x), SearchPath(t, x)) == Some(Node(Leaf, x, Leaf))
  {
    match t
    case Leaf =>
    case Node(l, v, r) =>
      var c := if x < v then l else r;
      SearchEndsAtNew(c, x);
      assert SearchPath(t, x)[1..] == SearchPath(c, x);
  }

  /** One step short of its end the route is at a node, and its last step goes right exactly when `x` is not less. */
  lemma {:induction false} SearchParent(t: Tree, x: int)
    ensures var p := SearchPath(t, x);
      |p| > 0 ==>
        var parent := Subtree(t, p[..|p| - 1]);
        parent.Some? && parent.value.Node? && p[|p| - 1] == (parent.value.value <= x)
  {
    match t
    case Leaf =>
    case Node(l, v, r) =>
      var c := if x < v then l else r;
      var p := SearchPath(c, x);
      var q := SearchPath(t, x);
      SearchParent(c, x);
      assert q == [x >= v] + p;
      if |p| > 0 {
        assert q[..|q| - 1] == [x >= v] + p[..|p| - 1];
        assert q[..|q| - 1][1..] == p[..|p| - 1];
        assert q[|q| - 1] == p[|p| - 1];
      } else {
        assert q[..|q| - 1] == [];
      }
  }

  /**
   * `BinaryTree`: a root that starts empty and a node count that `insert`
   * keeps equal to the number of nodes.
   */
  class BinaryTree {
    var root: Tree
    var nodeCount: nat

    ghost predicate Valid()
      reads this
    {
      nodeCount == Size(root) && IsBst(root)
    }

    constructor ()
      ensures Valid() && root == Leaf && nodeCount == 0
    {
      root := Leaf;
      nodeCount := 0;
    }

    /** `__len__`: the number of values inserted so far. */
    function Length(): (n: nat)
      reads this
      requires Valid()
      ensures n == |InOrder(root)|
    {
      nodeCount
    }

    /** `insert`: one more node, placed by `addChild`; the order is kept. */
    method Insert(x: int)
      requires Valid()
      modifies this
      ensures Valid()
      ensures root == AddChild(old(root), x)
      ensures nodeCount == old(nodeCount) + 1
      ensures Elements(root) == Elements(old(root)) + multiset{x}
    {
      AddChildKeepsBst(root, x);
      root := AddChild(root, x);
      nodeCount := nodeCount + 1;
    }
  }

  /** Inserting 1 then 2 puts 2 right of the root; inserting 2 then 1 puts 1 left of it. */
  lemma InsertScenarios()
    ensures InsertAll(Leaf, [1, 2]) == Node(Leaf, 1, Node(Leaf, 2, Leaf))
    ensures InsertAll(Leaf, [2, 1]) == Node(Node(Leaf, 1, Leaf), 2, Leaf)
  {
    InsertTwo(1, 2);
    InsertTwo(2, 1);
  }

  lemma InsertTwo(x: int, y: int)
    ensures InsertAll(Leaf, [x, y]) == AddChild(AddChild(Leaf, x), y)
  {
    var t1 := AddChild(Leaf, x);
    var t2 := AddChild(t1, y);
    assert [x, y][1..] == [y];
    assert [y][1..] == [];
    assert InsertAll(t2, []) == t2;
    assert InsertAll(t1, [y]) == InsertAll(t2, []);
    assert InsertAll(Leaf, [x, y]) == InsertAll(t1, [y]);
  }
}
