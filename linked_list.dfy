/**
 * The linked-list Iterator demo: every node has a value and at most one
 * child; `add` hangs a node below the last node of the list, and the
 * list's iterator returns the head first and then follows the `child`
 * links until it runs off the end.
 */
module LinkedList {

  /** `Node`: a value and the link to the next node. */
  class Node<T> {
    var value: T
    var child: Node?<T>
    /** The values from this node to the end of the list. */
    ghost var Values: seq<T>
    /** The nodes from this node to the end of the list. */
    ghost var Repr: set<object>

    /** The links from this node end, without a cycle, and `Values` lists them. */
    ghost predicate Valid()
      reads this, Repr
      decreases Repr
    {
      this in Repr &&
      (child == null ==> Repr == {this} && Values == [value]) &&
      (child != null ==>
        child in Repr && child.Repr <= Repr && this !in child.Repr &&
        Repr == {this} + child.Repr && Values == [value] + child.Values &&
        child.Valid())
    }

    /** A node without a child: a list of one. */
    constructor (v: T)
      ensures Valid() && fresh(Repr) && value == v && child == null && Values == [v]
    {
      value := v;
      child := null;
      Values := [v];
      Repr := {this};
    }

    /**
     * `add`: walks to the last node and hangs `node` (with whatever follows
     * it) there; the values already in the list keep their order. The list
     * that is added must not share a node with this one, or the result
     * would be a cycle.
     */
    method Add(node: Node<T>)
      requires Valid() && node.Valid() && Repr !! node.Repr
      modifies Repr
      ensures Valid() && value == old(value)
      ensures Values == old(Values) + node.Values
      ensures Repr == old(Repr) + node.Repr
      decreases Repr
    {
      if child != null {
        child.Add(node);
      } else {
        SetChild(node);
      }
      Values := [value] + child.Values;
      Repr := {this} + child.Repr;
    }

    /** The `child` setter; only a node can be assigned. */
    method SetChild(node: Node<T>)
      modifies this
      ensures child == node && value == old(value)
      ensures Values == old(Values) && Repr == old(Repr)
    {
      child := node;
    }

    /** `__iter__`: an iterator positioned before this node. */
    method Iterate() returns (it: Iterator<T>)
      requires Valid()
      ensures fresh(it) && it.Valid() && it.first == this && it.Pending == Values
    {
      it := new Iterator(this);
    }
  }

  /** What `Valid` says about the head of a list and the rest after it. */
  lemma Unfold<T>(n: Node<T>)
    requires n.Valid()
    ensures |n.Values| > 0 && n.Values[0] == n.value && n in n.Repr
    ensures n.child == null ==> n.Values[1..] == []
    ensures n.child != null ==> n.child.Valid() && n.child.Repr <= n.Repr && n.Values[1..] == n.child.Values
  {
  }

  /** `Iterator`: the node to start from, whether it has started, and the node it is at. */
  class Iterator<T> {
    const first: Node<T>
    var start: bool
    var current: Node?<T>
    /** The values the coming calls of `next` will return, in order. */
    ghost var Pending: seq<T>
    /** The nodes of the list being iterated. */
    ghost const Repr: set<object>

    ghost predicate Valid()
      reads this, Repr
    {
      this !in Repr && first in Repr && first.Repr <= Repr && first.Valid() &&
      (start ==> Pending == first.Values) &&
      (!start && current != null ==>
        current in Repr && current.Repr <= Repr && current.Valid() && Pending == current.Values[1..]) &&
      (!start && current == null ==> Pending == [])
    }

    constructor (node: Node<T>)
      requires node.Valid()
      ensures Valid() && first == node && start && current == null
      ensures Pending == node.Values && Repr == node.Repr
    {
      first := node;
      start := true;
      current := null;
      Pending := node.Values;
      Repr := node.Repr;
    }

    /** `isDone`: the iterator has run off the end of the list. */
    predicate IsDone()
      reads this
    {
      current == null
    }

    /**
     * `__next__`: the first call goes to the head, a later call to the
     * current node's child; off the end, the result is `null`, which
     * stands for `StopIteration`. After that, a further call would fail
     * on `next(None)`, which the precondition excludes.
     */
    method Next() returns (r: Node?<T>)
      requires Valid() && (start || current != null)
      modifies this
      ensures Valid() && !start && r == current && (r == null <==> IsDone())
      ensures old(Pending) == [] ==> r == null && Pending == []
      ensures old(Pending) != [] ==> r != null && r.value == old(Pending)[0] && Pending == old(Pending)[1..]
    {
      if start {
        Unfold(first);
        current := first;
        start := false;
      } else {
        var next := current.child;
        Unfold(current);
        if next != null {
          Unfold(next);
        }
        current := next;
      }
      Pending := if current == null then [] else current.Values[1..];
      if IsDone() {
        r := null;
      } else {
        r := current;
      }
    }
  }

  /** A list of `n` fresh nodes holding 0 to `n` - 1: a node of 0, then `add`s of 1 to `n` - 1. */
  method Count(n: nat) returns (list: Node<int>)
    requires n > 0
    ensures list.Valid() && fresh(list.Repr) && list.Values == seq(n, j => j)
  {
    list := new Node(0);
    for k := 1 to n
      invariant list.Valid() && fresh(list.Repr) && list.Values == seq(k, j => j)
    {
      var node := new Node(k);
      list.Add(node);
    }
  }

  /** Iterating a list until `StopIteration` returns its values in order: the head first, then along the links. */
  method Collect<T>(list: Node<T>) returns (values: seq<T>)
    requires list.Valid()
    ensures values == list.Values
  {
    var it := list.Iterate();
    values := [];
    var done := false;
    while !done
      invariant it.Valid() && values + it.Pending == list.Values
      invariant !done ==> it.start || it.current != null
      invariant done ==> it.Pending == []
      decreases |it.Pending| + (if done then 0 else 1)
    {
      ghost var pending := it.Pending;
      var r := it.Next();
      if r == null {
        done := true;
      } else {
        TakeFirst(values, pending);
        values := values + [r.value];
      }
    }
    assert values + [] == values;
  }

  /** Moving the first pending value over to the values taken keeps their concatenation. */
  lemma TakeFirst<T>(values: seq<T>, pending: seq<T>)
    requires pending != []
    ensures (values + [pending[0]]) + pending[1..] == values + pending
  {
    assert pending == [pending[0]] + pending[1..];
  }

  /** The test: a list built from 0 and then `add`s of 1 to 4 iterates as 0, 1, 2, 3, 4. */
  method ZeroToFour() returns (values: seq<int>)
    ensures values == [0, 1, 2, 3, 4]
  {
    var list := Count(5);
    values := Collect(list);
  }
}
