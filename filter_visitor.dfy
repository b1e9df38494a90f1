/**
 * The filtering Visitor demo: an object structure holds numeric and
 * character elements; `filter` lets every element accept the structure's
 * visitor in turn, and the visitor keeps (appends to its `filtered` list)
 * the elements of the one kind it is for.
 */
module FilterVisitor {
  import opened Outcomes

  /** The two `Element` subclasses. */
  datatype Kind = Numeric | Char

  /** An element; its identity is the object, its class the kind. */
  class Element {
    const kind: Kind

    constructor (k: Kind)
      ensures kind == k
    {
      kind := k;
    }
  }

  /** The elements of the given kind, in the order they come. */
  function Selected(k: Kind, elements: seq<Element>): seq<Element>
  {
    if elements == [] then []
    else
      var last := elements[|elements| - 1];
      Selected(k, elements[..|elements| - 1]) + (if last.kind == k then [last] else [])
  }

  /** Only elements of the kind are selected, and every element of the kind is. */
  lemma {:induction false} SelectedExactly(k: Kind, elements: seq<Element>)
    ensures forall e | e in Selected(k, elements) :: e.kind == k && e in elements
    ensures forall i | 0 <= i < |elements| && elements[i].kind == k :: elements[i] in Selected(k, elements)
  {
    if elements != [] {
      var front := elements[..|elements| - 1];
      SelectedExactly(k, front);
      assert forall i | 0 <= i < |front| :: front[i] == elements[i];
    }
  }

  /** Selecting from two runs of elements one after the other keeps their order. */
  lemma {:induction false} SelectedAppend(k: Kind, a: seq<Element>, b: seq<Element>)
    ensures Selected(k, a + b) == Selected(k, a) + Selected(k, b)
    decreases |b|
  {
    if b != [] {
      var b' := b[..|b| - 1];
      assert (a + b)[..|a + b| - 1] == a + b';
      SelectedAppend(k, a, b');
    } else {
      assert a + b == a;
    }
  }

  /** The numeric and the character elements together are as many as all the elements. */
  lemma {:induction false} SelectedSplit(elements: seq<Element>)
    ensures |Selected(Numeric, elements)| + |Selected(Char, elements)| == |elements|
  {
    if elements != [] {
      SelectedSplit(elements[..|elements| - 1]);
    }
  }

  /**
   * `NumericFilter` (keeps numeric elements) or `CharFilter` (keeps
   * character elements), with the `filtered` list every visitor has; it
   * is never cleared.
   */
  class Visitor {
    const keeps: Kind
    var filtered: seq<Element>

    constructor (k: Kind)
      ensures keeps == k && filtered == []
    {
      keeps := k;
      filtered := [];
    }

    /** `visitNumericElement` / `visitCharElement`: appends the element if it is of the kept kind. */
    method Visit(e: Element)
      modifies this
      ensures filtered == old(filtered) + Selected(keeps, [e])
    {
      if e.kind == keeps {
        filtered := filtered + [e];
      }
    }
  }

  /** Why `filter` can fail. */
  datatype Failure =
    | AssertionError // an element's `accept` was given `None` for a visitor
    | AttributeError // `None.result()`: no visitor and no elements

  /** `ObjectStructure`: the elements in the order added, and the visitor set last. */
  class ObjectStructure {
    var elements: seq<Element>
    var visitor: Visitor?

    constructor ()
      ensures elements == [] && visitor == null
    {
      elements := [];
      visitor := null;
    }

    /** `addElement`: the element goes at the end. */
    method AddElement(e: Element)
      modifies this
      ensures elements == old(elements) + [e] && visitor == old(visitor)
    {
      elements := elements + [e];
    }

    /** `setVisitor`. */
    method SetVisitor(v: Visitor)
      modifies this
      ensures visitor == v && elements == old(elements)
    {
      visitor := v;
    }

    /**
     * `filter`: every element accepts the visitor in order; the result is
     * the visitor's whole `filtered` list, which has the selected elements
     * appended to what it held before. The elements are left alone.
     */
    method Filter() returns (r: Result<seq<Element>, Failure>)
      modifies visitor
      ensures visitor == null && elements != [] ==> r == Err(AssertionError)
      ensures visitor == null && elements == [] ==> r == Err(AttributeError)
      ensures visitor != null ==>
        visitor.filtered == old(visitor.filtered) + Selected(visitor.keeps, elements) && r == Ok(visitor.filtered)
    {
      if visitor == null {
        r := if elements != [] then Err(AssertionError) else Err(AttributeError);
        return;
      }
      for i := 0 to |elements|
        invariant visitor.filtered == old(visitor.filtered) + Selected(visitor.keeps, elements[..i])
      {
        visitor.Visit(elements[i]);
        SelectedAppend(visitor.keeps, elements[..i], [elements[i]]);
        assert elements[..i + 1] == elements[..i] + [elements[i]];
      }
      assert elements[..|elements|] == elements;
      r := Ok(visitor.filtered);
    }
  }

  /**
   * The tests' structure: numeric, char, numeric, numeric, char, char,
   * numeric, char; a numeric filter returns only numeric elements, and a
   * char filter only char elements, each of them the four of its kind.
   */
  method FilterTests() returns (numbers: seq<Element>, chars: seq<Element>)
    ensures forall e | e in numbers :: e.kind == Numeric
    ensures forall e | e in chars :: e.kind == Char
    ensures |numbers| == 4 && |chars| == 4
  {
    var obj := new ObjectStructure();
    var kinds := [Numeric, Char, Numeric, Numeric, Char, Char, Numeric, Char];
    for i := 0 to |kinds|
      invariant |obj.elements| == i && forall j | 0 <= j < i :: obj.elements[j].kind == kinds[j]
    {
      var e := new Element(kinds[i]);
      obj.AddElement(e);
    }
    var elements := obj.elements;
    var numeric := new Visitor(Numeric);
    obj.SetVisitor(numeric);
    var r := obj.Filter();
    numbers := r.value;
    var character := new Visitor(Char);
    obj.SetVisitor(character);
    r := obj.Filter();
    chars := r.value;
    SelectedExactly(Numeric, elements);
    SelectedExactly(Char, elements);
    Counts(elements, kinds);
  }

  /** As many elements are selected as the kind occurs among the elements' kinds. */
  lemma {:induction false} SelectedCount(k: Kind, elements: seq<Element>, kinds: seq<Kind>)
    requires |elements| == |kinds| && forall j | 0 <= j < |kinds| :: elements[j].kind == kinds[j]
    ensures |Selected(k, elements)| == multiset(kinds)[k]
  {
    if elements != [] {
      var n := |elements| - 1;
      SelectedCount(k, elements[..n], kinds[..n]);
      assert kinds == kinds[..n] + [kinds[n]];
    }
  }

  /** In the tests' structure four elements are numeric and four are characters. */
  lemma Counts(elements: seq<Element>, kinds: seq<Kind>)
    requires kinds == [Numeric, Char, Numeric, Numeric, Char, Char, Numeric, Char]
    requires |elements| == |kinds| && forall j | 0 <= j < |kinds| :: elements[j].kind == kinds[j]
    ensures |Selected(Numeric, elements)| == 4 && |Selected(Char, elements)| == 4
  {
    SelectedCount(Numeric, elements, kinds);
    SelectedCount(Char, elements, kinds);
  }
}
