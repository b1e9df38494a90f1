/**
 * The chain-of-responsibility framework: every composite keeps a table of
 * request handlers by name and a successor; `add` makes a composite the
 * successor of the one added to it. A request is answered by the first
 * composite along the successor links, starting at the one asked, whose
 * table has a handler for the request's name; if none has, the answer is
 * `False`.
 */
module HandlerChain {
  import opened Outcomes

  /** A `Request` with the two attributes the tests give it. */
  datatype Request = Request(name: string, data: string)

  /** A handler function; what `handle_request` returns is its result. */
  type Handler = Request -> string

  /** `Composite`: its children, its handler table and its successor. */
  class Composite {
    var successor: Composite?
    var children: seq<Composite>
    var handlers: map<string, Handler>

    /** A new composite has no children, no handlers and no successor. */
    constructor ()
      ensures successor == null && children == [] && handlers == map[]
    {
      children := [];
      handlers := map[];
      successor := null;
    }

    /**
     * `add`: the added composite gets this one as its successor and joins
     * the children; nothing else of either changes.
     */
    method Add(obj: Composite)
      modifies this, obj
      ensures obj.successor == this
      ensures children == old(children) + [obj]
      ensures handlers == old(handlers) && obj.handlers == old(obj.handlers)
      ensures obj != this ==> successor == old(successor) && obj.children == old(obj.children)
    {
      obj.successor := this;
      children := children + [obj];
    }

    /** The `handlers` setter: adds or replaces the entry for `name`; the other entries stay. */
    method SetHandler(name: string, func: Handler)
      modifies this
      ensures handlers == old(handlers)[name := func]
      ensures successor == old(successor) && children == old(children)
    {
      handlers := handlers[name := func];
    }

    /**
     * `handle_request`: this composite's own handler for the name if it has
     * one, otherwise its successor's answer, otherwise `False` (`None`
     * here). `chain` lists the composites along the successor links.
     */
    method HandleRequest(request: Request, ghost chain: seq<Composite>) returns (r: Option<string>)
      requires IsChain(chain) && chain[0] == this
      ensures r == Answer(chain, request)
      decreases |chain|
    {
      assert |chain| > 1 ==> successor == chain[1];
      if request.name in handlers {
        var handle := handlers[request.name];
        r := Some(handle(request));
        assert Holder(chain, request.name) == Some(0);
      } else if successor != null {
        assert chain[1..][0] == successor;
        r := successor.HandleRequest(request, chain[1..]);
        assert Answer(chain, request) == Answer(chain[1..], request);
      } else {
        r := None;
      }
    }
  }

  /** `chain` is a composite followed by its successors, up to the one that has none. */
  ghost predicate IsChain(chain: seq<Composite>)
    reads chain
  {
    |chain| > 0 && chain[|chain| - 1].successor == null &&
    forall i | 0 <= i < |chain| - 1 :: chain[i].successor == chain[i + 1]
  }

  /** The position along the chain of the first composite with a handler for the name. */
  function Holder(chain: seq<Composite>, name: string): (k: Option<nat>)
    reads chain
    ensures k.Some? ==> (k.value < |chain| && name in chain[k.value].handlers
      && forall j | 0 <= j < k.value :: name !in chain[j].handlers)
    ensures k.None? ==> forall j | 0 <= j < |chain| :: name !in chain[j].handlers
  {
    if chain == [] then None
    else if name in chain[0].handlers then Some(0)
    else
      match Holder(chain[1..], name)
      case None => None
      case Some(k) => Some(k + 1)
  }

  /** The answer to a request: the first holder's handler applied to it, or `False` when there is no holder. */
  ghost function Answer(chain: seq<Composite>, request: Request): (r: Option<string>)
    reads chain
    ensures r.Some? <==> exists j | 0 <= j < |chain| :: request.name in chain[j].handlers
  {
    match Holder(chain, request.name)
    case None => None
    case Some(k) => Some(chain[k].handlers[request.name](request))
  }

  /** The request of the tests. */
  const Foo := Request("foo", "World")

  /** What the tests' two handlers make of the request. */
  lemma Spelled()
    ensures "Hello, " + Foo.data + "!" == "Hello, World!"
    ensures Foo.name + ", bar, baz!" == "foo, bar, baz!"
  {
  }

  /** The first test: a lone composite without handlers answers `False`. */
  method LoneComposite() returns (r: Option<string>)
    ensures r == None
  {
    var c := new Composite();
    r := c.HandleRequest(Foo, [c]);
  }

  /** The second test: a composite with a handler for 'foo' answers with it. */
  method OwnHandler() returns (r: Option<string>)
    ensures r == Some("Hello, World!")
  {
    var c := new Composite();
    c.SetHandler("foo", (x: Request) => "Hello, " + x.data + "!");
    r := c.HandleRequest(Foo, [c]);
    Spelled();
  }

  /** Only the last composite of the chain has a handler for the name: it is the holder. */
  lemma {:induction false} HolderLast(chain: seq<Composite>, name: string)
    requires |chain| > 0 && name in chain[|chain| - 1].handlers
    requires forall k | 0 <= k < |chain| - 1 :: name !in chain[k].handlers
    ensures Holder(chain, name) == Some(|chain| - 1)
  {
    if |chain| > 1 {
      HolderLast(chain[1..], name);
    }
  }

  /**
   * The loop of the third test: `levels` new composites, each `add`ing the
   * previous top, stacked above `leaf`; the chain from the leaf runs
   * through all of them to the new top.
   */
  method Stack(leaf: Composite, levels: nat) returns (root: Composite, ghost chain: seq<Composite>)
    requires leaf.successor == null && leaf.handlers == map[]
    modifies leaf
    ensures IsChain(chain) && chain[0] == leaf && chain[|chain| - 1] == root && |chain| == levels + 1
    ensures forall k | 0 <= k < |chain| :: chain[k].handlers == map[]
    ensures forall k | 0 <= k < |chain| - 1 :: chain[k] != root
    ensures levels > 0 ==> fresh(root)
    ensures leaf.handlers == map[]
  {
    root := leaf;
    chain := [leaf];
    for i := 0 to levels
      invariant IsChain(chain) && chain[0] == leaf && chain[|chain| - 1] == root && |chain| == i + 1
      invariant forall k | 0 <= k < |chain| :: chain[k].handlers == map[]
      invariant forall k | 0 <= k < |chain| - 1 :: chain[k] != root
      invariant i > 0 ==> fresh(root)
      invariant leaf.handlers == map[]
    {
      var tmp := new Composite();
      tmp.Add(root);
      root := tmp;
      chain := chain + [tmp];
    }
  }

  /**
   * The third test: four composites stacked above a leaf by `add`, the top
   * one holding a handler for 'foo'; the leaf's request travels the four
   * links up to it.
   */
  method FourLevels() returns (r: Option<string>)
    ensures r == Some("foo, bar, baz!")
  {
    var leaf := new Composite();
    var root;
    ghost var chain;
    root, chain := Stack(leaf, 4);
    root.SetHandler("foo", (x: Request) => x.name + ", bar, baz!");
    HolderLast(chain, "foo");
    r := leaf.HandleRequest(Foo, chain);
    Spelled();
  }
}
