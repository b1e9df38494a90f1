/**
 * The three resumable traversal iterators over `BinaryTree` and the
 * `iterator(name)` factory of the newer Iterator demo. Each iterator keeps
 * an explicit stack (its last element is the top, as with Python's
 * `append`/`pop`), a count of values produced and the node produced last.
 * The tree is not changed while an iterator runs, so the stack holds
 * subtrees of the tree the iterator was created on.
 */
module TreeIterators {
  import opened Outcomes
  import opened Trees

  // ---------------------------------------------------------------------
  // Stacks

  /** Every entry of a stack is a node, not an empty child. */
  ghost predicate AllNodes(stack: seq<Tree>)
  {
    stack == [] || (stack[|stack| - 1].Node? && AllNodes(stack[..|stack| - 1]))
  }

  lemma AllNodesPush(below: seq<Tree>, top: Tree)
    ensures AllNodes(below + [top]) <==> top.Node? && AllNodes(below)
  {
    assert (below + [top])[..|below|] == below;
  }

  lemma {:induction false} AllNodesAppend(s: seq<Tree>, u: seq<Tree>)
    requires AllNodes(s) && AllNodes(u)
    ensures AllNodes(s + u)
    decreases |u|
  {
    if u == [] {
      assert s + u == s;
    } else {
      var n := |u| - 1;
      assert s + u == (s + u[..n]) + [u[n]];
      AllNodesAppend(s, u[..n]);
      AllNodesPush(s + u[..n], u[n]);
    }
  }

  /** A non-empty sequence is its prefix with its last element appended. */
  lemma SplitLast<T>(s: seq<T>)
    requires |s| > 0
    ensures s == s[..|s| - 1] + [s[|s| - 1]]
  {
  }

  /** A prefix one element longer is the prefix with that element appended. */
  lemma PrefixStep<T>(s: seq<T>, k: nat)
    requires k < |s|
    ensures s[..k + 1] == s[..k] + [s[k]]
  {
  }

  /** Concatenation is associative. */
  lemma Assoc<T>(x: seq<T>, p: seq<T>, y: seq<T>)
    ensures x + (p + y) == (x + p) + y
  {
  }

  // ---------------------------------------------------------------------
  // In-order

  /** What the in-order stack still yields, top first: each node, then its right subtree. */
  function InOrderPending(stack: seq<Tree>): seq<int>
  {
    if stack == [] then []
    else
      InOrderYield(stack[|stack| - 1]) + InOrderPending(stack[..|stack| - 1])
  }

  /** What one in-order stack entry yields once popped: its value, then its right subtree. */
  function InOrderYield(t: Tree): seq<int>
  {
    if t.Node? then [t.value] + InOrder(t.right) else []
  }

  /** What `__fillStack` pushes: the cursor, then left children while there are any. */
  function LeftSpine(t: Tree): (s: seq<Tree>)
    ensures |s| > 0 && s[0] == t
  {
    match t
    case Leaf => [Leaf]
    case Node(l, _, _) => [t] + (if l.Node? then LeftSpine(l) else [])
  }

  /** Below a node with a left child, the spine continues with that child's spine. */
  lemma SpineStep(t: Tree)
    requires t.Node? && t.left.Node?
    ensures LeftSpine(t)[1..] == LeftSpine(t.left)
    ensures LeftSpine(t.left) == [t.left] + LeftSpine(t.left)[1..]
  {
  }

  /** Pushing the left child keeps what the stack and the rest of the spine make together. */
  lemma SpinePush(stack: seq<Tree>, t: Tree)
    requires t.Node? && t.left.Node?
    ensures (stack + [t.left]) + LeftSpine(t.left)[1..] == stack + LeftSpine(t)[1..]
  {
    SpineStep(t);
    Assoc(stack, [t.left], LeftSpine(t.left)[1..]);
  }

  /** Where the walk down stops, the rest of the spine is empty. */
  lemma SpineEnd(stack: seq<Tree>, t: Tree)
    requires !(t.Node? && t.left.Node?)
    ensures stack + LeftSpine(t)[1..] == stack
  {
    assert LeftSpine(t)[1..] == [];
  }

  lemma {:induction false} LeftSpineNodes(t: Tree)
    requires t.Node?
    ensures AllNodes(LeftSpine(t))
  {
    AllNodesPush([], t);
    assert [] + [t] == [t];
    if t.left.Node? {
      LeftSpineNodes(t.left);
      AllNodesAppend([t], LeftSpine(t.left));
    } else {
      assert LeftSpine(t) == [t];
    }
  }

  lemma {:induction false} InOrderPendingAppend(s: seq<Tree>, u: seq<Tree>)
    ensures InOrderPending(s + u) == InOrderPending(u) + InOrderPending(s)
    decreases |u|
  {
    if u != [] {
      var n := |u| - 1;
      assert (s + u)[..|s + u| - 1] == s + u[..n];
      assert (s + u)[|s + u| - 1] == u[n];
      InOrderPendingAppend(s, u[..n]);
    } else {
      assert s + u == s;
    }
  }

  lemma InOrderPendingPush(below: seq<Tree>, top: Tree)
    ensures InOrderPending(below + [top]) == InOrderYield(top) + InOrderPending(below)
  {
    assert (below + [top])[..|below|] == below;
  }

  /** Pushing the left spine of `t` schedules exactly the in-order walk of `t`. */
  lemma {:induction false} InOrderPendingSpine(t: Tree)
    ensures InOrderPending(LeftSpine(t)) == InOrder(t)
  {
    match t
    case Leaf =>
      InOrderPendingSingle(t);
    case Node(l, v, r) =>
      InOrderPendingSingle(t);
      if l.Node? {
        assert LeftSpine(t) == [t] + LeftSpine(l);
        InOrderPendingSpine(l);
        InOrderPendingAppend([t], LeftSpine(l));
      } else {
        assert LeftSpine(t) == [t];
      }
  }

  /** A stack of one entry yields what that entry yields. */
  lemma InOrderPendingSingle(t: Tree)
    ensures InOrderPending([t]) == InOrderYield(t)
  {
    assert [t][..0] == [];
  }

  /** The stack `next` leaves: the top popped, the left spine of its right child pushed. */
  function InOrderAfterPop(stack: seq<Tree>): seq<Tree>
    requires |stack| > 0
  {
    var top := stack[|stack| - 1];
    stack[..|stack| - 1] + (if top.Node? && top.right.Node? then LeftSpine(top.right) else [])
  }

  /**
   * One `next` on an in-order stack whose top is a node: what the stack
   * yields is that node's value, then what the stack left behind yields.
   */
  lemma InOrderAdvance(stack: seq<Tree>)
    requires |stack| > 0 && stack[|stack| - 1].Node?
    ensures InOrderPending(stack) == [stack[|stack| - 1].value] + InOrderPending(InOrderAfterPop(stack))
  {
    var top := stack[|stack| - 1];
    var below := stack[..|stack| - 1];
    var tail := InOrder(top.right) + InOrderPending(below);
    assert InOrderPending(stack) == [top.value] + tail by {
      SplitLast(stack);
      InOrderPendingPush(below, top);
      Assoc([top.value], InOrder(top.right), InOrderPending(below));
    }
    assert InOrderPending(InOrderAfterPop(stack)) == tail by {
      if top.right.Node? {
        InOrderPendingAppend(below, LeftSpine(top.right));
        InOrderPendingSpine(top.right);
      } else {
        assert InOrderAfterPop(stack) == below + [];
        assert below + [] == below;
      }
    }
  }

  /** The first element of a sequence built with a given head, and the rest. */
  lemma HeadAndRest<T>(x: T, y: seq<T>, s: seq<T>)
    requires s == [x] + y
    ensures |s| > 0 && s[0] == x && s[1..] == y
  {
  }

  /** A stack with a value still to yield is not empty, and its top is a node. */
  lemma NodesPendingTop(stack: seq<Tree>)
    requires AllNodes(stack) && InOrderPending(stack) != []
    ensures |stack| > 0 && stack[|stack| - 1].Node? && AllNodes(stack[..|stack| - 1])
  {
  }

  /**
   * One `next` on an in-order stack of nodes that yields the walk of `root`
   * from position `count` on: the top holds the walk's value at `count`,
   * and the stack left behind yields the walk from `count + 1` on.
   */
  lemma InOrderStep(root: Tree, count: nat, stack: seq<Tree>)
    requires AllNodes(stack) && count < |InOrder(root)|
    requires InOrderPending(stack) == InOrder(root)[count..]
    ensures |stack| > 0 && stack[|stack| - 1].Node?
    ensures stack[|stack| - 1].value == InOrder(root)[count]
    ensures InOrderPending(InOrderAfterPop(stack)) == InOrder(root)[count + 1..]
    ensures AllNodes(InOrderAfterPop(stack))
  {
    NodesPendingTop(stack);
    var top := stack[|stack| - 1];
    InOrderAdvance(stack);
    HeadAndRest(top.value, InOrderPending(InOrderAfterPop(stack)), InOrder(root)[count..]);
    assert InOrder(root)[count..][1..] == InOrder(root)[count + 1..];
    if top.right.Node? {
      LeftSpineNodes(top.right);
      AllNodesAppend(stack[..|stack| - 1], LeftSpine(top.right));
    } else {
      assert InOrderAfterPop(stack) == stack[..|stack| - 1];
    }
  }

  /** `InOrderIterator` of the newer demo. */
  class InOrderIterator {
    const root: Tree
    const size: nat
    var current: Option<Tree>
    var count: nat
    var stack: seq<Tree>

    /** The values still to come are exactly the rest of the in-order walk. */
    ghost predicate Valid()
      reads this
    {
      && size == Size(root)
      && count <= size
      && InOrderPending(stack) == InOrder(root)[count..]
      && (root.Node? ==> AllNodes(stack))
    }

    constructor (tree: BinaryTree)
      requires tree.Valid()
      ensures Valid() && Produced()
      ensures root == tree.root && size == tree.nodeCount
      ensures current == None && count == 0 && stack == LeftSpine(root)
    {
      root := tree.root;
      size := tree.nodeCount;
      current := None;
      count := 0;
      stack := [];
      new;
      FillStack(root);
      Restarted();
    }

    /** The stack holding just the left spine of the root is a fresh start. */
    lemma Restarted()
      requires size == Size(root) && count == 0 && stack == [] + LeftSpine(root)
      ensures Valid()
    {
      assert stack == LeftSpine(root);
      InOrderPendingSpine(root);
      assert InOrder(root)[0..] == InOrder(root);
      if root.Node? {
        LeftSpineNodes(root);
      }
    }

    /** `__fillStack`: push the cursor and walk down its left children. */
    method FillStack(cursor: Tree)
      modifies this`stack
      ensures stack == old(stack) + LeftSpine(cursor)
    {
      var c := cursor;
      var s := stack + [c];
      while c.Node? && c.left.Node?
        invariant s + LeftSpine(c)[1..] == old(stack) + LeftSpine(cursor)
        decreases c
      {
        SpinePush(s, c);
        c := c.left;
        s := s + [c];
      }
      SpineEnd(s, c);
      stack := s;
    }

    /** `isDone`: every value of the tree has been produced. */
    function IsDone(): (done: bool)
      reads this
      requires Valid()
      ensures done <==> count == |InOrder(root)|
    {
      count >= size
    }

    /**
     * What `current` holds: the node of the last value produced, or `None`
     * before the first value and once the walk is done.
     */
    ghost predicate Produced()
      reads this
    {
      && (current.Some? ==>
        0 < count <= |InOrder(root)| && current.value.Node? && current.value.value == InOrder(root)[count - 1])
      && (current.None? ==> count == 0 || count == |InOrder(root)|)
    }

    /** `currentItem`: the node produced last, without advancing. */
    function CurrentItem(): (r: Option<Tree>)
      reads this
      requires Produced()
      ensures r.Some? ==> 0 < count && r.value.Node? && r.value.value == InOrder(root)[count - 1]
      ensures r.None? ==> count == 0 || count == |InOrder(root)|
    {
      current
    }

    /**
     * `next`: the node holding the next value of the in-order walk, and the
     * left spine of its right child pushed; once done, `None`.
     */
    method Next() returns (r: Option<Tree>)
      requires Valid()
      modifies this`current, this`count, this`stack
      ensures Valid() && Produced() && current == r
      ensures old(count) >= size ==> r == None && count == old(count) && stack == old(stack)
      ensures old(count) < size ==>
        && count == old(count) + 1
        && r == Some(old(stack)[|old(stack)| - 1])
        && r.value.Node? && r.value.value == InOrder(root)[old(count)]
        && stack == InOrderAfterPop(old(stack))
    {
      if count >= size {
        current := None;
      } else {
        InOrderStep(root, count, stack);
        ghost var after := InOrderAfterPop(stack);
        count := count + 1;
        var top := stack[|stack| - 1];
        stack := stack[..|stack| - 1];
        current := Some(top);
        if top.right.Node? {
          FillStack(top.right);
        }
        assert stack == after;
      }
      r := current;
    }

    /** `first`: reset the state and produce the first value of the walk. */
    method First() returns (r: Option<Tree>)
      requires Valid()
      modifies this`current, this`count, this`stack
      ensures Valid() && Produced() && current == r
      ensures size == 0 ==> r == None && count == 0
      ensures size > 0 ==> count == 1 && r.Some? && r.value.Node? && r.value.value == InOrder(root)[0]
    {
      current := None;
      count := 0;
      stack := [];
      FillStack(root);
      Restarted();
      r := Next();
    }
  }

  // ---------------------------------------------------------------------
  // Pre-order

  /** Children in the order `__fillStack` pushes them: right first, then left. */
  function Children(t: Tree): seq<Tree>
  {
    match t
    case Leaf => []
    case Node(l, _, r) => (if r.Node? then [r] else []) + (if l.Node? then [l] else [])
  }

  /** Every stack entry, top first, yields its whole pre-order walk. */
  function PreOrderAll(stack: seq<Tree>): seq<int>
  {
    if stack == [] then []
    else PreOrder(stack[|stack| - 1]) + PreOrderAll(stack[..|stack| - 1])
  }

  /**
   * The top of the pre-order stack has had its children pushed below it
   * already, so it yields only its own value; the entries below yield their
   * whole walks.
   */
  function PreOrderPending(stack: seq<Tree>): seq<int>
  {
    if stack == [] then []
    else
      var top := stack[|stack| - 1];
      (if top.Node? then [top.value] else []) + PreOrderAll(stack[..|stack| - 1])
  }

  /** `cursor` expanded on top of `base`: its children, then itself. */
  function Expand(base: seq<Tree>, cursor: Tree): seq<Tree>
  {
    base + Children(cursor) + [cursor]
  }

  /**
   * The stack `next` leaves: the top popped; then the entry below it, if
   * any, popped and expanded again.
   */
  function PreOrderAfterPop(stack: seq<Tree>): seq<Tree>
    requires |stack| > 0
  {
    var below := stack[..|stack| - 1];
    if below == [] then [] else Expand(below[..|below| - 1], below[|below| - 1])
  }

  lemma ChildrenNodes(t: Tree)
    ensures AllNodes(Children(t))
  {
    if t.Node? {
      var l, r := t.left, t.right;
      AllNodesPush([], l);
      AllNodesPush([], r);
      assert [] + [l] == [l] && [] + [r] == [r];
      if r.Node? && l.Node? {
        AllNodesPush([r], l);
        assert Children(t) == [r] + [l];
      } else if r.Node? {
        assert Children(t) == [r];
      } else if l.Node? {
        assert Children(t) == [l];
      } else {
        assert Children(t) == [];
      }
    }
  }

  lemma ExpandNodes(base: seq<Tree>, cursor: Tree)
    requires AllNodes(base) && cursor.Node?
    ensures AllNodes(Expand(base, cursor))
  {
    ChildrenNodes(cursor);
    AllNodesAppend(base, Children(cursor));
    AllNodesPush(base + Children(cursor), cursor);
  }

  lemma {:induction false} PreOrderAllAppend(s: seq<Tree>, u: seq<Tree>)
    ensures PreOrderAll(s + u) == PreOrderAll(u) + PreOrderAll(s)
    decreases |u|
  {
    if u != [] {
      var n := |u| - 1;
      assert (s + u)[..|s + u| - 1] == s + u[..n];
      assert (s + u)[|s + u| - 1] == u[n];
      PreOrderAllAppend(s, u[..n]);
    } else {
      assert s + u == s;
    }
  }

  lemma PreOrderAllPush(below: seq<Tree>, top: Tree)
    ensures PreOrderAll(below + [top]) == PreOrder(top) + PreOrderAll(below)
  {
    assert (below + [top])[..|below|] == below;
  }

  lemma PreOrderPendingPush(below: seq<Tree>, top: Tree)
    requires top.Node?
    ensures PreOrderPending(below + [top]) == [top.value] + PreOrderAll(below)
  {
    assert (below + [top])[..|below|] == below;
  }

  lemma PreOrderAllSingle(t: Tree)
    ensures PreOrderAll([t]) == PreOrder(t)
  {
    assert [t][..0] == [];
  }

  /** An entry pushed only if it is a node yields that subtree's walk either way. */
  lemma PreOrderAllOptional(t: Tree)
    ensures PreOrderAll(if t.Node? then [t] else []) == PreOrder(t)
  {
    if t.Node? {
      PreOrderAllSingle(t);
    }
  }

  /** The children pushed for `c` yield its left subtree's walk, then its right subtree's. */
  lemma PreOrderAllChildren(c: Tree)
    requires c.Node?
    ensures PreOrderAll(Children(c)) == PreOrder(c.left) + PreOrder(c.right)
  {
    var rs: seq<Tree> := if c.right.Node? then [c.right] else [];
    var ls: seq<Tree> := if c.left.Node? then [c.left] else [];
    assert Children(c) == rs + ls;
    PreOrderAllAppend(rs, ls);
    PreOrderAllOptional(c.left);
    PreOrderAllOptional(c.right);
  }

  /** Expanding an entry (children below, itself on top) keeps the values to come. */
  lemma PreOrderExpand(base: seq<Tree>, c: Tree)
    requires c.Node?
    ensures PreOrderPending(Expand(base, c)) == PreOrder(c) + PreOrderAll(base)
  {
    var x := base + Children(c);
    var a, l, r := PreOrderAll(base), PreOrder(c.left), PreOrder(c.right);
    ghost var k := PreOrderAll(Children(c));
    assert PreOrderAll(x) == k + a by {
      PreOrderAllAppend(base, Children(c));
    }
    assert k == l + r by {
      PreOrderAllChildren(c);
    }
    assert PreOrderPending(x + [c]) == [c.value] + PreOrderAll(x) by {
      PreOrderPendingPush(x, c);
    }
    Regroup([c.value], l, r, a);
  }

  /** Concatenation regrouped: `x + ((p + q) + y)` is `((x + p) + q) + y`. */
  lemma Regroup(x: seq<int>, p: seq<int>, q: seq<int>, y: seq<int>)
    ensures x + ((p + q) + y) == ((x + p) + q) + y
  {
  }

  /**
   * One `next` on a pre-order stack of nodes: what the stack yields is its
   * top's value, then what the stack left behind yields, which again holds
   * only nodes.
   */
  lemma PreOrderAdvance(stack: seq<Tree>)
    requires |stack| > 0 && AllNodes(stack)
    ensures stack[|stack| - 1].Node?
    ensures PreOrderPending(stack) == [stack[|stack| - 1].value] + PreOrderPending(PreOrderAfterPop(stack))
    ensures AllNodes(PreOrderAfterPop(stack))
  {
    var top := stack[|stack| - 1];
    var below := stack[..|stack| - 1];
    assert top.Node? && AllNodes(below);
    ghost var after := PreOrderAfterPop(stack);
    assert PreOrderPending(stack) == [top.value] + PreOrderAll(below) by {
      SplitLast(stack);
      PreOrderPendingPush(below, top);
    }
    assert PreOrderPending(after) == PreOrderAll(below) && AllNodes(after) by {
      if below != [] {
        var base, cursor := below[..|below| - 1], below[|below| - 1];
        assert after == Expand(base, cursor);
        assert cursor.Node? && AllNodes(base);
        assert PreOrderAll(below) == PreOrder(cursor) + PreOrderAll(base) by {
          SplitLast(below);
          PreOrderAllPush(base, cursor);
        }
        PreOrderExpand(base, cursor);
        ExpandNodes(base, cursor);
      }
    }
  }

  /** Popping the top of a pre-order stack that still yields the walk from position `count` on. */
  lemma PreOrderStep(root: Tree, count: nat, stack: seq<Tree>)
    requires AllNodes(stack) && count < |PreOrder(root)|
    requires PreOrderPending(stack) == PreOrder(root)[count..]
    ensures |stack| > 0 && stack[|stack| - 1].Node?
    ensures |stack| > 1 ==> stack[|stack| - 2].Node?
    ensures stack[|stack| - 1].value == PreOrder(root)[count]
    ensures PreOrderPending(PreOrderAfterPop(stack)) == PreOrder(root)[count + 1..]
    ensures AllNodes(PreOrderAfterPop(stack))
  {
    assert stack != [];
    PreOrderAdvance(stack);
    HeadAndRest(stack[|stack| - 1].value, PreOrderPending(PreOrderAfterPop(stack)), PreOrder(root)[count..]);
    assert PreOrder(root)[count..][1..] == PreOrder(root)[count + 1..];
    if |stack| > 1 {
      var below := stack[..|stack| - 1];
      assert AllNodes(below);
      assert below[|below| - 1] == stack[|stack| - 2];
    }
  }

  /** `PreOrderIterator` of the newer demo. */
  class PreOrderIterator {
    const root: Tree
    const size: nat
    var current: Option<Tree>
    var count: nat
    var stack: seq<Tree>

    /** The values still to come are exactly the rest of the pre-order walk. */
    ghost predicate Valid()
      reads this
    {
      && size == Size(root)
      && count <= size
      && PreOrderPending(stack) == PreOrder(root)[count..]
      && AllNodes(stack)
    }

    constructor (tree: BinaryTree)
      requires tree.Valid()
      ensures Valid() && Produced()
      ensures root == tree.root && size == tree.nodeCount
      ensures current == None && count == 0
      ensures stack == if root.Node? then Expand([], root) else []
    {
      root := tree.root;
      size := tree.nodeCount;
      current := None;
      count := 0;
      stack := [];
      new;
      FillStack(root);
      Restarted();
    }

    /** The stack holding just the expanded root is a fresh start. */
    lemma Restarted()
      requires size == Size(root) && count == 0
      requires stack == if root.Node? then Expand([], root) else []
      ensures Valid()
    {
      assert PreOrder(root)[0..] == PreOrder(root);
      if root.Node? {
        PreOrderExpand([], root);
        ExpandNodes([], root);
      }
    }

    /**
     * `__fillStack`: nothing for an empty cursor; otherwise its right child,
     * its left child and the cursor itself.
     */
    method FillStack(cursor: Tree)
      modifies this`stack
      ensures stack == if cursor.Node? then Expand(old(stack), cursor) else old(stack)
    {
      if cursor.Leaf? {
        return;
      }
      if cursor.right.Node? {
        stack := stack + [cursor.right];
      }
      if cursor.left.Node? {
        stack := stack + [cursor.left];
      }
      stack := stack + [cursor];
    }

    /** `isDone`: every value of the tree has been produced. */
    function IsDone(): (done: bool)
      reads this
      requires Valid()
      ensures done <==> count == |PreOrder(root)|
    {
      count >= size
    }

    /**
     * What `current` holds: the node of the last value produced, or `None`
     * before the first value and once the walk is done.
     */
    ghost predicate Produced()
      reads this
    {
      && (current.Some? ==>
        0 < count <= |PreOrder(root)| && current.value.Node? && current.value.value == PreOrder(root)[count - 1])
      && (current.None? ==> count == 0 || count == |PreOrder(root)|)
    }

    /** `currentItem`: the node produced last, without advancing. */
    function CurrentItem(): (r: Option<Tree>)
      reads this
      requires Produced()
      ensures r.Some? ==> 0 < count && r.value.Node? && r.value.value == PreOrder(root)[count - 1]
      ensures r.None? ==> count == 0 || count == |PreOrder(root)|
    {
      current
    }

    /**
     * `next`: pop the expanded top as the result, then pop the entry below
     * it (if any) and expand it; once done, `None`. The `try` around the
     * second pop only ever catches the pop from an empty stack.
     */
    method Next() returns (r: Option<Tree>)
      requires Valid()
      modifies this`current, this`count, this`stack
      ensures Valid() && Produced() && current == r
      ensures old(count) >= size ==> r == None && count == old(count) && stack == old(stack)
      ensures old(count) < size ==>
        && count == old(count) + 1
        && r == Some(old(stack)[|old(stack)| - 1])
        && r.value.Node? && r.value.value == PreOrder(root)[old(count)]
        && stack == PreOrderAfterPop(old(stack))
    {
      if count >= size {
        current := None;
      } else {
        var s := stack;
        PreOrderStep(root, count, s);
        count := count + 1;
        var top := s[|s| - 1];
        stack := s[..|s| - 1];
        current := Some(top);
        if |stack| > 0 {
          var cursor := stack[|stack| - 1];
          stack := stack[..|stack| - 1];
          // the pushes written out in `next` are those of `__fillStack`
          FillStack(cursor);
        }
        assert stack == PreOrderAfterPop(s);
      }
      r := current;
    }

    /** `first`: reset the state and produce the first value of the walk. */
    method First() returns (r: Option<Tree>)
      requires Valid()
      modifies this`current, this`count, this`stack
      ensures Valid() && Produced() && current == r
      ensures size == 0 ==> r == None && count == 0
      ensures size > 0 ==> count == 1 && r == Some(root)
    {
      current := None;
      count := 0;
      stack := [];
      FillStack(root);
      Restarted();
      r := Next();
    }
  }

  // ---------------------------------------------------------------------
  // Post-order

  /** Every stack entry, top first, yields its own value. */
  function PostOrderPending(stack: seq<Tree>): seq<int>
  {
    if stack == [] then []
    else
      var top := stack[|stack| - 1];
      (if top.Node? then [top.value] else []) + PostOrderPending(stack[..|stack| - 1])
  }

  /** What the recursive `__fillStack` pushes: the cursor, then its right subtree's, then its left subtree's. */
  function Schedule(t: Tree): seq<Tree>
  {
    match t
    case Leaf => []
    case Node(l, _, r) => [t] + Schedule(r) + Schedule(l)
  }

  lemma {:induction false} ScheduleNodes(t: Tree)
    ensures AllNodes(Schedule(t))
  {
    match t
    case Leaf =>
    case Node(l, _, r) =>
      ScheduleNodes(l);
      ScheduleNodes(r);
      AllNodesPush([], t);
      assert [] + [t] == [t];
      AllNodesAppend([t], Schedule(r));
      AllNodesAppend([t] + Schedule(r), Schedule(l));
  }

  lemma {:induction false} PostOrderPendingAppend(s: seq<Tree>, u: seq<Tree>)
    ensures PostOrderPending(s + u) == PostOrderPending(u) + PostOrderPending(s)
    decreases |u|
  {
    if u != [] {
      var n := |u| - 1;
      assert (s + u)[..|s + u| - 1] == s + u[..n];
      assert (s + u)[|s + u| - 1] == u[n];
      PostOrderPendingAppend(s, u[..n]);
    } else {
      assert s + u == s;
    }
  }

  /** The precomputed schedule pops as the post-order walk. */
  lemma {:induction false} PostOrderSchedule(t: Tree)
    ensures PostOrderPending(Schedule(t)) == PostOrder(t)
  {
    match t
    case Leaf =>
    case Node(l, v, r) =>
      PostOrderSchedule(l);
      PostOrderSchedule(r);
      PostOrderPendingAppend([t] + Schedule(r), Schedule(l));
      PostOrderPendingAppend([t], Schedule(r));
      assert [t][..0] == [];
  }

  /** The constructor's stack: the root, then the schedules of its right and left subtrees. */
  function PostOrderStart(root: Tree): seq<Tree>
  {
    if root.Node? then [root] + Schedule(root.right) + Schedule(root.left) else [root]
  }

  /** The constructor's stack pops as exactly the post-order walk. */
  lemma PostOrderStartPending(root: Tree)
    ensures PostOrderPending(PostOrderStart(root)) == PostOrder(root)
    ensures root.Node? ==> AllNodes(PostOrderStart(root))
  {
    assert [root][..0] == [];
    if root.Node? {
      var l, r := root.left, root.right;
      var a := [root] + Schedule(r);
      assert PostOrderPending(a) == PostOrder(r) + [root.value] by {
        PostOrderPendingAppend([root], Schedule(r));
        PostOrderSchedule(r);
      }
      assert PostOrderPending(a + Schedule(l)) == PostOrder(l) + PostOrderPending(a) by {
        PostOrderPendingAppend(a, Schedule(l));
        PostOrderSchedule(l);
      }
      Assoc(PostOrder(l), PostOrder(r), [root.value]);
      assert AllNodes(a + Schedule(l)) by {
        ScheduleNodes(l);
        ScheduleNodes(r);
        AllNodesPush([], root);
        assert [] + [root] == [root];
        AllNodesAppend([root], Schedule(r));
        AllNodesAppend(a, Schedule(l));
      }
    }
  }

  /**
   * `first` of the post-order iterator starts from `[root]` and then fills
   * from the root itself, so the root is on the stack twice: its value is
   * scheduled once more after the whole walk.
   */
  lemma PostOrderRestartStack(root: Tree)
    requires root.Node?
    ensures PostOrderPending([root] + Schedule(root)) == PostOrder(root) + [root.value]
    ensures AllNodes([root] + Schedule(root))
  {
    PostOrderPendingAppend([root], Schedule(root));
    PostOrderSchedule(root);
    assert [root][..0] == [];
    ScheduleNodes(root);
    AllNodesPush([], root);
    assert [] + [root] == [root];
    AllNodesAppend([root], Schedule(root));
  }

  /** Popping a node off a post-order stack yields its value first. */
  lemma PostOrderPop(stack: seq<Tree>)
    requires |stack| > 0 && stack[|stack| - 1].Node?
    ensures PostOrderPending(stack) == [stack[|stack| - 1].value] + PostOrderPending(stack[..|stack| - 1])
  {
  }

  /** `PostOrderIterator` of the newer demo. */
  class PostOrderIterator {
    const root: Tree
    const size: nat
    var current: Option<Tree>
    var count: nat
    var stack: seq<Tree>
    /** What the stack yields after the rest of the walk: the doubled root `first` leaves. */
    ghost var surplus: seq<int>

    /** The values still to come are the rest of the post-order walk, then the surplus. */
    ghost predicate Valid()
      reads this
    {
      && size == Size(root)
      && count <= size
      && PostOrderPending(stack) == PostOrder(root)[count..] + surplus
      && (root.Node? ==> AllNodes(stack))
    }

    constructor (tree: BinaryTree)
      requires tree.Valid()
      ensures Valid() && Produced()
      ensures root == tree.root && size == tree.nodeCount
      ensures current == None && count == 0
      ensures stack == PostOrderStart(root) && surplus == []
    {
      root := tree.root;
      size := tree.nodeCount;
      current := None;
      count := 0;
      stack := [tree.root];
      surplus := [];
      new;
      if root.Node? {
        FillStack(root.right);
        FillStack(root.left);
      }
      PostOrderStartPending(root);
      assert PostOrder(root)[0..] + [] == PostOrder(root);
    }

    /** `__fillStack`: push the cursor, then recursively its right and left subtrees. */
    method FillStack(cursor: Tree)
      modifies this`stack
      ensures stack == old(stack) + Schedule(cursor)
      decreases cursor
    {
      if cursor.Leaf? {
        assert old(stack) + [] == old(stack);
        return;
      }
      stack := stack + [cursor];
      if cursor.right.Node? {
        FillStack(cursor.right);
      }
      if cursor.left.Node? {
        FillStack(cursor.left);
      }
      Assoc(old(stack), [cursor], Schedule(cursor.right));
      Assoc(old(stack), [cursor] + Schedule(cursor.right), Schedule(cursor.left));
    }

    /** `isDone`: every value of the tree has been produced. */
    function IsDone(): (done: bool)
      reads this
      requires Valid()
      ensures done <==> count == |PostOrder(root)|
    {
      count >= size
    }

    /**
     * What `current` holds: the node of the last value produced, or `None`
     * before the first value and once the walk is done.
     */
    ghost predicate Produced()
      reads this
    {
      && (current.Some? ==>
        0 < count <= |PostOrder(root)| && current.value.Node? && current.value.value == PostOrder(root)[count - 1])
      && (current.None? ==> count == 0 || count == |PostOrder(root)|)
    }

    /** `currentItem`: the node produced last, without advancing. */
    function CurrentItem(): (r: Option<Tree>)
      reads this
      requires Produced()
      ensures r.Some? ==> 0 < count && r.value.Node? && r.value.value == PostOrder(root)[count - 1]
      ensures r.None? ==> count == 0 || count == |PostOrder(root)|
    {
      current
    }

    /** `next`: pop the top of the precomputed stack; once done, `None`. */
    method Next() returns (r: Option<Tree>)
      requires Valid()
      modifies this`current, this`count, this`stack
      ensures Valid() && Produced() && current == r
      ensures old(count) >= size ==> r == None && count == old(count) && stack == old(stack)
      ensures old(count) < size ==>
        && count == old(count) + 1
        && r == Some(old(stack)[|old(stack)| - 1])
        && r.value.Node? && r.value.value == PostOrder(root)[old(count)]
        && stack == old(stack)[..|old(stack)| - 1]
    {
      if count >= size {
        current := None;
      } else {
        assert stack != [];
        var top := stack[|stack| - 1];
        var below := stack[..|stack| - 1];
        assert top.Node? && AllNodes(below);
        PostOrderPop(stack);
        ghost var walk := PostOrder(root);
        HeadAndRest(walk[count], walk[count + 1..] + surplus, walk[count..] + surplus) by {
          assert walk[count..] == [walk[count]] + walk[count + 1..];
          Assoc([walk[count]], walk[count + 1..], surplus);
        }
        HeadAndRest(top.value, PostOrderPending(below), walk[count..] + surplus);
        count := count + 1;
        stack := below;
        current := Some(top);
      }
      r := current;
    }

    /**
     * `first`: restart from `[root]`, fill from the root (which pushes the
     * root a second time) and produce the first value of the walk.
     */
    method First() returns (r: Option<Tree>)
      requires Valid()
      modifies this`current, this`count, this`stack, this`surplus
      ensures Valid() && Produced() && current == r
      ensures surplus == if root.Node? then [root.value] else []
      ensures size == 0 ==> r == None && count == 0
      ensures size > 0 ==> count == 1 && r.Some? && r.value.Node? && r.value.value == PostOrder(root)[0]
    {
      current := None;
      count := 0;
      stack := [root];
      surplus := if root.Node? then [root.value] else [];
      FillStack(root);
      Restarted();
      r := Next();
    }

    /** The doubled root left by `first`: the whole walk, then the root's value once more. */
    lemma Restarted()
      requires size == Size(root) && count == 0 && stack == [root] + Schedule(root)
      requires surplus == if root.Node? then [root.value] else []
      ensures Valid()
    {
      assert PostOrder(root)[0..] == PostOrder(root);
      if root.Node? {
        PostOrderRestartStack(root);
      } else {
        assert stack == [root];
        assert [root][..0] == [];
      }
    }
  }

  // ---------------------------------------------------------------------
  // The factory and clients

  /** The three iterator classes `iterator(name)` can build. */
  datatype Traversal = InOrderTraversal | PreOrderTraversal | PostOrderTraversal

  /** Python's `KeyError` from the dictionary lookup of an unknown name. */
  datatype KeyError = KeyError(key: string)

  /** The name `iterator()` uses when none is given. */
  const DefaultName: string := "inorder"

  /** The dictionary lookup in `iterator(name)`. */
  function IteratorKind(name: string): (r: Result<Traversal, KeyError>)
    ensures r == Ok(InOrderTraversal) <==> name == "inorder"
    ensures r == Ok(PreOrderTraversal) <==> name == "preorder"
    ensures r == Ok(PostOrderTraversal) <==> name == "postorder"
    ensures r.Err? <==> name !in {"inorder", "preorder", "postorder"}
    ensures r.Err? ==> r.error == KeyError(name)
  {
    if name == "inorder" then Ok(InOrderTraversal)
    else if name == "preorder" then Ok(PreOrderTraversal)
    else if name == "postorder" then Ok(PostOrderTraversal)
    else Err(KeyError(name))
  }

  /** The reference walk each kind of iterator follows. */
  function Walk(kind: Traversal, t: Tree): seq<int>
  {
    match kind
    case InOrderTraversal => InOrder(t)
    case PreOrderTraversal => PreOrder(t)
    case PostOrderTraversal => PostOrder(t)
  }

  /**
   * Call `next` on a fresh in-order iterator until it is done: the values
   * are the in-order walk, `len(tree)` of them, and one more call gives the
   * `None` sentinel.
   */
  method DrainInOrder(tree: BinaryTree) returns (values: seq<int>, sentinel: Option<Tree>)
    requires tree.Valid()
    ensures values == InOrder(tree.root) && |values| == tree.Length()
    ensures sentinel == None
  {
    var it := new InOrderIterator(tree);
    ghost var walk := InOrder(tree.root);
    values := [];
    while !it.IsDone()
      invariant it.Valid() && it.root == tree.root
      invariant values == walk[..it.count]
      decreases it.size - it.count
    {
      ghost var k := it.count;
      var r := it.Next();
      PrefixStep(walk, k);
      values := values + [r.value.value];
    }
    assert values == walk;
    sentinel := it.Next();
  }

  /** The same for the pre-order iterator. */
  method DrainPreOrder(tree: BinaryTree) returns (values: seq<int>, sentinel: Option<Tree>)
    requires tree.Valid()
    ensures values == PreOrder(tree.root) && |values| == tree.Length()
    ensures sentinel == None
  {
    var it := new PreOrderIterator(tree);
    ghost var walk := PreOrder(tree.root);
    values := [];
    while !it.IsDone()
      invariant it.Valid() && it.root == tree.root
      invariant values == walk[..it.count]
      decreases it.size - it.count
    {
      ghost var k := it.count;
      var r := it.Next();
      PrefixStep(walk, k);
      values := values + [r.value.value];
    }
    assert values == walk;
    sentinel := it.Next();
  }

  /** The same for the post-order iterator. */
  method DrainPostOrder(tree: BinaryTree) returns (values: seq<int>, sentinel: Option<Tree>)
    requires tree.Valid()
    ensures values == PostOrder(tree.root) && |values| == tree.Length()
    ensures sentinel == None
  {
    var it := new PostOrderIterator(tree);
    ghost var walk := PostOrder(tree.root);
    values := [];
    while !it.IsDone()
      invariant it.Valid() && it.root == tree.root
      invariant values == walk[..it.count]
      decreases it.size - it.count
    {
      ghost var k := it.count;
      var r := it.Next();
      PrefixStep(walk, k);
      values := values + [r.value.value];
    }
    assert values == walk;
    sentinel := it.Next();
  }

  /**
   * `tree.iterator(name)` drained: the walk of the named kind, or the
   * `KeyError` of an unknown name.
   */
  method DrainNamed(tree: BinaryTree, name: string) returns (r: Result<seq<int>, KeyError>)
    requires tree.Valid()
    ensures IteratorKind(name).Err? ==> r == Err(KeyError(name))
    ensures IteratorKind(name).Ok? ==> r == Ok(Walk(IteratorKind(name).value, tree.root))
  {
    var kind := IteratorKind(name);
    match kind
    case Err(e) =>
      r := Err(e);
    case Ok(InOrderTraversal) =>
      var values, _ := DrainInOrder(tree);
      r := Ok(values);
    case Ok(PreOrderTraversal) =>
      var values, _ := DrainPreOrder(tree);
      r := Ok(values);
    case Ok(PostOrderTraversal) =>
      var values, _ := DrainPostOrder(tree);
      r := Ok(values);
  }
}
