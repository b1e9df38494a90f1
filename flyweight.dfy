/**
 * The Flyweight demo: a factory hands out one shared flyweight per key,
 * creating it (with the key as its intrinsic state) the first time the
 * key is asked for and returning the stored one every time after.
 */
module Flyweight {

  /** `ConcreteFlyweight`: the intrinsic state it was created with. */
  class ConcreteFlyweight<K> {
    const intrinsicState: K

    constructor (state: K)
      ensures intrinsicState == state
    {
      intrinsicState := state;
    }
  }

  /** `FlyweightFactory`: the flyweights created so far, by key. */
  class FlyweightFactory<K(==)> {
    var flyweights: map<K, ConcreteFlyweight<K>>

    /** Every stored flyweight holds the key it is stored under. */
    predicate Valid()
      reads this
    {
      forall k | k in flyweights :: flyweights[k].intrinsicState == k
    }

    constructor ()
      ensures Valid() && flyweights == map[]
    {
      flyweights := map[];
    }

    /**
     * `getFlyweight`: a key already stored gives its flyweight and changes
     * nothing; a new key gets a fresh flyweight holding it, stored under it,
     * and no other entry changes.
     */
    method GetFlyweight(key: K) returns (w: ConcreteFlyweight<K>)
      requires Valid()
      modifies this
      ensures Valid() && key in flyweights && w == flyweights[key] && w.intrinsicState == key
      ensures key in old(flyweights) ==> w == old(flyweights)[key] && flyweights == old(flyweights)
      ensures key !in old(flyweights) ==> fresh(w) && flyweights == old(flyweights)[key := w]
    {
      if key in flyweights {
        w := flyweights[key];
      } else {
        w := new ConcreteFlyweight(key);
        flyweights := flyweights[key := w];
      }
    }
  }

  /**
   * The keys the factory stores after a run of requests are exactly the
   * keys asked for, each once; asking twice for the same key gives the
   * same flyweight both times.
   */
  method Requests<K(==)>(keys: seq<K>) returns (stored: set<K>, shared: bool)
    ensures stored == set i | 0 <= i < |keys| :: keys[i]
    ensures shared
  {
    var factory := new FlyweightFactory<K>();
    var given: seq<ConcreteFlyweight<K>> := [];
    for i := 0 to |keys|
      invariant factory.Valid()
      invariant factory.flyweights.Keys == set j | 0 <= j < i :: keys[j]
      invariant |given| == i && forall j | 0 <= j < i :: given[j] == factory.flyweights[keys[j]]
    {
      var w := factory.GetFlyweight(keys[i]);
      given := given + [w];
    }
    stored := factory.flyweights.Keys;
    shared := forall j, k | 0 <= j < |keys| && 0 <= k < |keys| && keys[j] == keys[k] :: given[j] == given[k];
  }

  /** The client: asking for 'A', 'B', 'C' and 'A' again leaves three flyweights. */
  method Client() returns (count: nat, same: bool)
    ensures count == 3 && same
  {
    var factory := new FlyweightFactory<char>();
    var a := factory.GetFlyweight('A');
    var b := factory.GetFlyweight('B');
    var c := factory.GetFlyweight('C');
    var again := factory.GetFlyweight('A');
    assert factory.flyweights.Keys == {'A', 'B', 'C'};
    count := |factory.flyweights|;
    same := a == again;
  }
}
