/**
 * The index-based Iterator demo: an aggregate appends elements to a list,
 * and its iterator walks that list by position, keeping the last position
 * read in `count` (-1 before the first `next`) and the element there in
 * `current` (`None` before the first element and after the last).
 */
module ListIterator {
  import opened Outcomes

  /** The exception `first` raises on an empty aggregate. */
  datatype Failure = IndexError

  /** `ConcreteAggregate`: the elements in the order they were pushed. */
  class ConcreteAggregate<T> {
    var elements: seq<T>

    constructor ()
      ensures elements == [] && Length() == 0
    {
      elements := [];
    }

    /** `__len__`: the number of elements pushed. */
    function Length(): (n: nat)
      reads this
      ensures n == |elements|
    {
      |elements|
    }

    /** `push`: the element goes at the end; the others keep their places, and `len` grows by one. */
    method Push(element: T)
      modifies this
      ensures elements == old(elements) + [element]
      ensures Length() == old(Length()) + 1
    {
      elements := elements + [element];
    }

    /** `createIterator`: a fresh iterator over this aggregate, before its first element. */
    method CreateIterator() returns (it: ConcreteIterator<T>)
      ensures fresh(it) && it.aggregate == this && it.count == -1 && it.current == None
    {
      it := new ConcreteIterator(this);
    }
  }

  /**
   * `ConcreteIterator`. It reads the aggregate's live list: an element
   * pushed while it is running is seen by it.
   */
  class ConcreteIterator<T> {
    const aggregate: ConcreteAggregate<T>
    var current: Option<T>
    var count: int

    /** `count` is -1 or a position `next` or `first` has reached. */
    predicate Valid()
      reads this
    {
      count >= -1
    }

    constructor (obj: ConcreteAggregate<T>)
      ensures aggregate == obj && current == None && count == -1 && Valid()
    {
      aggregate := obj;
      current := None;
      count := -1;
    }

    /** `isDone`: no element is left after position `count`; asking changes nothing. */
    method IsDone() returns (done: bool)
      ensures done <==> count + 1 >= |aggregate.elements|
    {
      done := count + 1 >= aggregate.Length();
    }

    /**
     * `next`: when elements are left, moves to the next position and
     * returns the element there; when none are, sets `current` to `None`,
     * returns it, and leaves `count` where it was.
     */
    method Next() returns (r: Option<T>)
      requires Valid()
      modifies this
      ensures Valid() && r == current
      ensures old(count) + 1 < |aggregate.elements| ==>
        count == old(count) + 1 && r == Some(aggregate.elements[count])
      ensures old(count) + 1 >= |aggregate.elements| ==> count == old(count) && r == None
    {
      var done := IsDone();
      if done {
        current := None;
      } else {
        count := count + 1;
        current := Some(aggregate.elements[count]);
      }
      r := current;
    }

    /**
     * `first`: goes back to position 0 from wherever the iteration was and
     * returns the first element; on an empty aggregate the index fails
     * after `count` has been reset, and `current` is left alone.
     */
    method First() returns (r: Result<T, Failure>)
      modifies this
      ensures Valid() && count == 0
      ensures |aggregate.elements| > 0 ==>
        r == Ok(aggregate.elements[0]) && current == Some(aggregate.elements[0])
      ensures |aggregate.elements| == 0 ==> r == Err(IndexError) && current == old(current)
    {
      count := 0;
      if count < aggregate.Length() {
        current := Some(aggregate.elements[count]);
        r := Ok(aggregate.elements[count]);
      } else {
        r := Err(IndexError);
      }
    }
  }

  /**
   * A fresh iterator returns the elements in push order, one per `next`;
   * then it is done, and a further `next` returns `None`.
   */
  method Walk<T>(agg: ConcreteAggregate<T>) returns (values: seq<Option<T>>, done: bool, after: Option<T>)
    ensures |values| == |agg.elements|
    ensures forall i | 0 <= i < |values| :: values[i] == Some(agg.elements[i])
    ensures done && after == None
  {
    var it := agg.CreateIterator();
    values := [];
    while |values| < |agg.elements|
      invariant it.Valid() && it.aggregate == agg && it.count == |values| - 1
      invariant |values| <= |agg.elements|
      invariant forall i | 0 <= i < |values| :: values[i] == Some(agg.elements[i])
      decreases |agg.elements| - |values|
    {
      var v := it.Next();
      values := values + [v];
    }
    done := it.IsDone();
    after := it.Next();
  }

  /** After any number of `next` calls, `first` returns the first element again. */
  method Rewind<T>(agg: ConcreteAggregate<T>, k: nat) returns (r: Result<T, Failure>)
    ensures |agg.elements| > 0 ==> r == Ok(agg.elements[0])
    ensures |agg.elements| == 0 ==> r == Err(IndexError)
  {
    var it := agg.CreateIterator();
    for i := 0 to k
      invariant it.Valid() && it.aggregate == agg
    {
      var _ := it.Next();
    }
    r := it.First();
  }

  /** The tests' aggregate: 0, 1 and 2 pushed in that order. */
  method ZeroOneTwo() returns (agg: ConcreteAggregate<int>)
    ensures fresh(agg) && agg.elements == [0, 1, 2] && agg.Length() == 3
  {
    agg := new ConcreteAggregate();
    for i := 0 to 3
      invariant agg.elements == seq(i, j => j)
    {
      agg.Push(i);
    }
  }

  /**
   * The first test: three `next` calls return 0, 1 and 2, and the
   * iterator is then done; the second: after two `next` calls, `first`
   * returns 0.
   */
  method IteratorTests() returns (values: seq<Option<int>>, done: bool, first: Result<int, Failure>)
    ensures values == [Some(0), Some(1), Some(2)] && done && first == Ok(0)
  {
    var agg := ZeroOneTwo();
    var after;
    values, done, after := Walk(agg);
    first := Rewind(agg, 2);
  }
}
