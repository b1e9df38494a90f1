/**
 * The older Iterator demo: an in-order iterator that primes its stack
 * lazily on the first `next`, and a pre-order iterator that hands out the
 * root first and pushes the children of every node it hands out. Both
 * insist on a non-empty tree, and once done, `next` answers `None` without
 * touching the iterator.
 */
module LegacyTreeIterators {
  import opened Outcomes
  import opened Trees
  import opened TreeIterators

  /** The primed stack, the left spine of the root, yields the whole in-order walk. */
  lemma SpineStart(root: Tree)
    requires root.Node?
    ensures InOrderPending([] + LeftSpine(root)) == InOrder(root)[0..]
    ensures AllNodes([] + LeftSpine(root))
  {
    assert [] + LeftSpine(root) == LeftSpine(root);
    InOrderPendingSpine(root);
    LeftSpineNodes(root);
    assert InOrder(root)[0..] == InOrder(root);
  }

  /** What `currentItem` raises when no node has been produced: `None.value`. */
  datatype ItemError = AttributeError

  /** `InOrderIterator` of the older demo. */
  class InOrderIterator {
    const root: Tree
    const size: nat
    var current: Option<Tree>
    var count: nat
    var stack: seq<Tree>

    /** Not yet primed: no value produced and nothing on the stack. */
    ghost predicate Unprimed()
      reads this
    {
      count == 0 && stack == []
    }

    /**
     * Unprimed, nothing has been produced; otherwise the stack yields
     * exactly the rest of the in-order walk. `current` is the node of the
     * last value produced.
     */
    ghost predicate Valid()
      reads this
    {
      && root.Node?
      && size == Size(root)
      && count <= size
      && AllNodes(stack)
      && (count == 0 ==> current == None)
      && (count > 0 ==> current.Some? && current.value.Node? && current.value.value == InOrder(root)[count - 1])
      && (!Unprimed() ==> InOrderPending(stack) == InOrder(root)[count..])
    }

    /** The constructor asserts that the tree has a root node. */
    constructor (tree: BinaryTree)
      requires tree.Valid() && tree.root.Node?
      ensures Valid() && Unprimed()
      ensures root == tree.root && size == tree.nodeCount && current == None
    {
      root := tree.root;
      size := tree.nodeCount;
      current := None;
      count := 0;
      stack := [];
    }

    /**
     * `fillStack`: with no node produced yet, push the root; otherwise start
     * from the top of the stack; then push left children while there are any.
     */
    method FillStack()
      requires current.Some? ==> stack != []
      modifies this`stack
      ensures current.None? ==> stack == old(stack) + LeftSpine(root)
      ensures current.Some? ==> stack == old(stack) + LeftSpine(old(stack)[|old(stack)| - 1])[1..]
    {
      var cursor;
      if current.None? {
        cursor := root;
        stack := stack + [cursor];
        assert stack == old(stack) + LeftSpine(root)[..1];
      } else {
        cursor := stack[|stack| - 1];
      }
      ghost var spine := LeftSpine(cursor);
      ghost var s0 := stack[..|stack| - 1];
      assert stack == s0 + spine[..1];
      while cursor.Node? && cursor.left.Node?
        invariant stack + LeftSpine(cursor)[1..] == s0 + spine
        decreases cursor
      {
        ghost var prev := stack;
        SpineStep(cursor);
        cursor := cursor.left;
        stack := stack + [cursor];
        Assoc(prev, [cursor], LeftSpine(cursor)[1..]);
      }
      assert LeftSpine(cursor)[1..] == [];
      if current.Some? {
        assert s0 == old(stack)[..|old(stack)| - 1];
        assert old(stack) == s0 + spine[..1];
        Assoc(s0, spine[..1], spine[1..]);
        assert spine == spine[..1] + spine[1..];
      }
    }

    /**
     * `pop`: the top of the stack becomes the current node; its right child,
     * if any, is pushed and the stack refilled from it.
     */
    method Pop() returns (r: Tree)
      requires stack != [] && stack[|stack| - 1].Node?
      modifies this`current, this`stack
      ensures r == old(stack)[|old(stack)| - 1] && current == Some(r)
      ensures stack == InOrderAfterPop(old(stack))
    {
      current := Some(stack[|stack| - 1]);
      stack := stack[..|stack| - 1];
      r := current.value;
      if r.right.Node? {
        stack := stack + [r.right];
        FillStack();
        assert LeftSpine(r.right) == [r.right] + LeftSpine(r.right)[1..];
        Assoc(old(stack)[..|old(stack)| - 1], [r.right], LeftSpine(r.right)[1..]);
      }
    }

    /** `isDone`: every value of the tree has been produced. */
    function IsDone(): (done: bool)
      reads this
      requires Valid()
      ensures done <==> count == |InOrder(root)|
    {
      count >= size
    }

    /**
     * `currentItem`: the node produced last. Its log message reads
     * `current.value` first, so before the first `next` it raises
     * `AttributeError`.
     */
    function CurrentItem(): (r: Result<Tree, ItemError>)
      reads this
      requires Valid()
      ensures count == 0 ==> r == Err(AttributeError)
      ensures count > 0 ==> r.Ok? && r.value.Node? && r.value.value == InOrder(root)[count - 1]
    {
      if current.Some? then Ok(current.value) else Err(AttributeError)
    }

    /**
     * `next`: once done, `None` and nothing changes; otherwise prime the
     * stack if it is empty and pop the node holding the next value of the
     * in-order walk.
     */
    method Next() returns (r: Option<Tree>)
      requires Valid()
      modifies this`current, this`count, this`stack
      ensures Valid()
      ensures old(count) >= size ==>
        r == None && count == old(count) && stack == old(stack) && current == old(current)
      ensures old(count) < size ==>
        && count == old(count) + 1 && current == r
        && r.Some? && r.value.Node? && r.value.value == InOrder(root)[old(count)]
    {
      if count >= size {
        return None;
      }
      PrimeIfEmpty();
      InOrderStep(root, count, stack);
      ghost var after := InOrderAfterPop(stack);
      count := count + 1;
      var node := Pop();
      assert stack == after;
      r := Some(node);
    }

    /** The first step of `next` when not done: an empty stack is filled from the root. */
    method PrimeIfEmpty()
      requires Valid() && count < size
      modifies this`stack
      ensures AllNodes(stack) && InOrderPending(stack) == InOrder(root)[count..]
      ensures old(stack) != [] ==> stack == old(stack)
      ensures old(stack) == [] ==> stack == LeftSpine(root)
    {
      if |stack| == 0 {
        assert current == None;
        FillStack();
        SpineStart(root);
      }
    }

    /** `first`: clear the state, then `next`: the smallest value. */
    method First() returns (r: Option<Tree>)
      requires Valid()
      modifies this`current, this`count, this`stack
      ensures Valid() && current == r && count == 1
      ensures r.Some? && r.value.Node? && r.value.value == InOrder(root)[0]
    {
      stack := [];
      count := 0;
      current := None;
      FillStack();
      SpineStart(root);
      r := Next();
    }
  }

  /**
   * One pre-order step of the older demo on a stack of nodes: the popped
   * top yields its value, and with its children pushed the stack yields
   * the rest.
   */
  lemma PreOrderPopStep(stack: seq<Tree>)
    requires |stack| > 0 && AllNodes(stack)
    ensures stack[|stack| - 1].Node?
    ensures PreOrderAll(stack)
        == [stack[|stack| - 1].value] + PreOrderAll(stack[..|stack| - 1] + Children(stack[|stack| - 1]))
    ensures AllNodes(stack[..|stack| - 1] + Children(stack[|stack| - 1]))
  {
    var top := stack[|stack| - 1];
    var below := stack[..|stack| - 1];
    assert top.Node? && AllNodes(below);
    assert PreOrderAll(stack) == PreOrder(top) + PreOrderAll(below) by {
      SplitLast(stack);
      PreOrderAllPush(below, top);
    }
    assert PreOrderAll(below + Children(top)) == (PreOrder(top.left) + PreOrder(top.right)) + PreOrderAll(below) by {
      PreOrderAllAppend(below, Children(top));
      PreOrderAllChildren(top);
    }
    Regroup([top.value], PreOrder(top.left), PreOrder(top.right), PreOrderAll(below));
    ChildrenNodes(top);
    AllNodesAppend(below, Children(top));
  }

  /** The root's children, pushed after the root is handed out, yield the rest of the walk. */
  lemma PreOrderRootStep(root: Tree)
    requires root.Node?
    ensures PreOrderAll([] + Children(root)) == PreOrder(root)[1..]
    ensures AllNodes([] + Children(root))
  {
    assert [] + Children(root) == Children(root);
    PreOrderAllChildren(root);
    ChildrenNodes(root);
    Assoc([root.value], PreOrder(root.left), PreOrder(root.right));
    HeadAndRest(root.value, PreOrder(root.left) + PreOrder(root.right), PreOrder(root));
  }

  /** Popping the top of a pre-order stack that still yields values from position `count` on. */
  lemma PreOrderPopAdvance(root: Tree, count: nat, stack: seq<Tree>)
    requires AllNodes(stack) && count < |PreOrder(root)| && PreOrderAll(stack) == PreOrder(root)[count..]
    ensures |stack| > 0 && stack[|stack| - 1].Node? && stack[|stack| - 1].value == PreOrder(root)[count]
    ensures PreOrderAll(stack[..|stack| - 1] + Children(stack[|stack| - 1])) == PreOrder(root)[count + 1..]
    ensures AllNodes(stack[..|stack| - 1] + Children(stack[|stack| - 1]))
  {
    assert stack != [];
    var top := stack[|stack| - 1];
    var below := stack[..|stack| - 1];
    PreOrderPopStep(stack);
    HeadAndRest(top.value, PreOrderAll(below + Children(top)), PreOrder(root)[count..]);
    assert PreOrder(root)[count..][1..] == PreOrder(root)[count + 1..];
  }

  /** `PreOrderIterator` of the older demo. */
  class PreOrderIterator {
    const root: Tree
    const size: nat
    var current: Option<Tree>
    var count: nat
    var stack: seq<Tree>

    /**
     * Before the first value the stack is empty; afterwards every entry
     * yields its whole pre-order walk and together they yield the rest of
     * the root's; `current` is the node of the last value produced.
     */
    ghost predicate Valid()
      reads this
    {
      && root.Node?
      && size == Size(root)
      && count <= size
      && AllNodes(stack)
      && (count == 0 ==> stack == [] && current == None)
      && (count > 0 ==> PreOrderAll(stack) == PreOrder(root)[count..])
      && (count > 0 ==> current.Some? && current.value.Node? && current.value.value == PreOrder(root)[count - 1])
    }

    /** The constructor asserts that the tree has a root node. */
    constructor (tree: BinaryTree)
      requires tree.Valid() && tree.root.Node?
      ensures Valid()
      ensures root == tree.root && size == tree.nodeCount
      ensures current == None && count == 0 && stack == []
    {
      root := tree.root;
      size := tree.nodeCount;
      current := None;
      count := 0;
      stack := [];
    }

    /** `fillStack`: push the current node's right child, then its left child. */
    method FillStack()
      requires current.Some? && current.value.Node?
      modifies this`stack
      ensures stack == old(stack) + Children(current.value)
    {
      var node := current.value;
      if node.right.Node? {
        stack := stack + [node.right];
      }
      if node.left.Node? {
        stack := stack + [node.left];
      }
      if node.right.Node? && node.left.Node? {
        assert Children(node) == [node.right] + [node.left];
      } else if node.right.Node? {
        assert Children(node) == [node.right];
      } else if node.left.Node? {
        assert Children(node) == [node.left];
      } else {
        assert Children(node) == [];
      }
    }

    /** `isDone`: every value of the tree has been produced. */
    function IsDone(): (done: bool)
      reads this
      requires Valid()
      ensures done <==> count == |PreOrder(root)|
    {
      count >= size
    }

    /**
     * `currentItem`: the node produced last. Its log message reads
     * `current.value` first, so before the first `next` it raises
     * `AttributeError`.
     */
    function CurrentItem(): (r: Result<Tree, ItemError>)
      reads this
      requires Valid()
      ensures count == 0 ==> r == Err(AttributeError)
      ensures count > 0 ==> r.Ok? && r.value.Node? && r.value.value == PreOrder(root)[count - 1]
    {
      if current.Some? then Ok(current.value) else Err(AttributeError)
    }

    /**
     * `next`: once done, `None` and nothing changes; the first time, the
     * root; afterwards the top of the stack; the children of the node
     * handed out are pushed, right first.
     */
    method Next() returns (r: Option<Tree>)
      requires Valid()
      modifies this`current, this`count, this`stack
      ensures Valid()
      ensures old(count) >= size ==>
        r == None && count == old(count) && stack == old(stack) && current == old(current)
      ensures old(count) == 0 < size ==> r == Some(root)
      ensures old(count) < size ==>
        && count == old(count) + 1 && current == r
        && r.Some? && r.value.Node? && r.value.value == PreOrder(root)[old(count)]
    {
      if count >= size {
        return None;
      }
      SelectNext();
      FillStack();
      count := count + 1;
      r := current;
    }

    /**
     * The node `next` hands out when not done: the root the first time,
     * the top of the stack afterwards (popped).
     */
    method SelectNext()
      requires Valid() && count < size
      modifies this`current, this`stack
      ensures current.Some? && current.value.Node? && current.value.value == PreOrder(root)[count]
      ensures old(count) == 0 ==> current == Some(root)
      ensures PreOrderAll(stack + Children(current.value)) == PreOrder(root)[count + 1..]
      ensures AllNodes(stack + Children(current.value))
    {
      if count == 0 {
        current := Some(root);
        PreOrderRootStep(root);
        assert stack + Children(root) == [] + Children(root);
      } else {
        var s := stack;
        PreOrderPopAdvance(root, count, s);
        var top := s[|s| - 1];
        var below := s[..|s| - 1];
        current := Some(top);
        stack := below;
      }
    }

    /** `first`: clear the state, then `next`: the root. */
    method First() returns (r: Option<Tree>)
      requires Valid()
      modifies this`current, this`count, this`stack
      ensures Valid() && current == r && count == 1 && r == Some(root)
    {
      current := None;
      count := 0;
      stack := [];
      r := Next();
    }
  }

  /**
   * Why `iterator(kind)` of the older demo fails: an unknown kind is a
   * `KeyError` of the dictionary; `postorder` is in the dictionary, but
   * its factory names a class the older demo does not define.
   */
  datatype LookupError = UnknownKind(key: string) | UndefinedClass(name: string)

  /** The dictionary lookup of `iterator(kind)` in the older demo; the default kind is `inorder`. */
  function IteratorKind(kind: string): (r: Result<Traversal, LookupError>)
    ensures r == Ok(InOrderTraversal) <==> kind == "inorder"
    ensures r == Ok(PreOrderTraversal) <==> kind == "preorder"
    ensures r.Ok? ==> r.value != PostOrderTraversal
    ensures r == Err(UndefinedClass("PostOrderIterator")) <==> kind == "postorder"
    ensures r == Err(UnknownKind(kind)) <==> kind !in {"inorder", "preorder", "postorder"}
  {
    if kind == "inorder" then Ok(InOrderTraversal)
    else if kind == "preorder" then Ok(PreOrderTraversal)
    else if kind == "postorder" then Err(UndefinedClass("PostOrderIterator"))
    else Err(UnknownKind(kind))
  }

  /**
   * Repeated `next` on a fresh in-order iterator of the older demo: the
   * in-order walk, then `None` with the last node still current.
   */
  method DrainInOrder(tree: BinaryTree) returns (values: seq<int>, sentinel: Option<Tree>, last: Option<Tree>)
    requires tree.Valid() && tree.root.Node?
    ensures values == InOrder(tree.root) && |values| == tree.Length()
    ensures sentinel == None
    ensures last.Some? && last.value.Node? && last.value.value == InOrder(tree.root)[|values| - 1]
  {
    var it := new InOrderIterator(tree);
    values := [];
    while !it.IsDone()
      invariant it.Valid() && it.root == tree.root && it.size == tree.nodeCount
      invariant values == InOrder(it.root)[..it.count]
      invariant it.count > 0 ==>
        it.current.Some? && it.current.value.Node? && it.current.value.value == InOrder(it.root)[it.count - 1]
      decreases it.size - it.count
    {
      var r := it.Next();
      values := values + [r.value.value];
    }
    last := it.current;
    sentinel := it.Next();
    assert it.current == last;
  }

  /** Repeated `next` on a fresh pre-order iterator of the older demo: the pre-order walk, then `None`. */
  method DrainPreOrder(tree: BinaryTree) returns (values: seq<int>, sentinel: Option<Tree>)
    requires tree.Valid() && tree.root.Node?
    ensures values == PreOrder(tree.root) && |values| == tree.Length()
    ensures sentinel == None
  {
    var it := new PreOrderIterator(tree);
    values := [];
    while !it.IsDone()
      invariant it.Valid() && it.root == tree.root && it.size == tree.nodeCount
      invariant values == PreOrder(it.root)[..it.count]
      decreases it.size - it.count
    {
      var r := it.Next();
      values := values + [r.value.value];
    }
    sentinel := it.Next();
  }
}
