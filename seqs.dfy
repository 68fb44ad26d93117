/** Sequence helpers shared by the systems: the join order of a storage
    join, and the distinctness of an iteration order. */
module Seqs {
  import opened Components

  /** Elements of `s` pairwise different. */
  predicate Distinct<T(==)>(s: seq<T>) {
    forall i, j :: 0 <= i < j < |s| ==> s[i] != s[j]
  }

  /** The entities of `order` that hold every facet of a join, i.e. whose id is
      in `keys`, in iteration order. A specs join over several storages visits
      exactly the entities in the intersection of their key sets. */
  function Join(order: seq<Entity>, keys: set<Entity>): (r: seq<Entity>)
    ensures |r| <= |order|
    ensures forall e :: e in r <==> e in order && e in keys
    ensures forall k :: 0 <= k < |r| ==> r[k] in keys
  {
    if order == [] then []
    else Join(order[..|order| - 1], keys) + (if order[|order| - 1] in keys then [order[|order| - 1]] else [])
  }

  lemma {:induction false} JoinDistinct(order: seq<Entity>, keys: set<Entity>)
    requires Distinct(order)
    ensures Distinct(Join(order, keys))
  {
    if order != [] {
      var init := order[..|order| - 1];
      assert Distinct(init);
      JoinDistinct(init, keys);
    }
  }

  /** The set of elements of an iteration order. */
  function Elems(order: seq<Entity>): set<Entity> {
    set e | e in order
  }

  /** The entries of a storage whose entity is in `keys`. */
  function Restrict<V>(m: map<Entity, V>, keys: set<Entity>): (r: map<Entity, V>)
    ensures r.Keys == m.Keys * keys
    ensures forall e :: e in r ==> r[e] == m[e]
  {
    map e | e in m && e in keys :: m[e]
  }

  /** Removing a set of entities from an iteration order. */
  function Without(order: seq<Entity>, gone: set<Entity>): (r: seq<Entity>)
    ensures forall e :: e in r <==> e in order && e !in gone
  {
    if order == [] then []
    else Without(order[..|order| - 1], gone) + (if order[|order| - 1] in gone then [] else [order[|order| - 1]])
  }

  lemma {:induction false} WithoutDistinct(order: seq<Entity>, gone: set<Entity>)
    requires Distinct(order)
    ensures Distinct(Without(order, gone))
  {
    if order != [] {
      var init := order[..|order| - 1];
      assert Distinct(init);
      WithoutDistinct(init, gone);
    }
  }

  /** Removing from a sequence extended by one element. */
  lemma WithoutSnoc(order: seq<Entity>, x: Entity, gone: set<Entity>)
    ensures Without(order + [x], gone) == Without(order, gone) + if x in gone then [] else [x]
  {
    assert (order + [x])[..|order|] == order;
  }

  lemma {:induction false} WithoutNothing(order: seq<Entity>)
    ensures Without(order, {}) == order
  {
    if order != [] {
      WithoutNothing(order[..|order| - 1]);
    }
  }

  /** Removing two sets one after the other removes their union. */
  lemma {:induction false} WithoutGrows(order: seq<Entity>, gone: set<Entity>, more: set<Entity>)
    ensures Without(Without(order, gone), more) == Without(order, gone + more)
  {
    if order != [] {
      var init, x := order[..|order| - 1], order[|order| - 1];
      var a := Without(init, gone);
      WithoutGrows(init, gone, more);
      assert Without(order, gone + more) == Without(init, gone + more) + (if x in gone + more then [] else [x]);
      if x in gone {
        assert Without(order, gone) == a + [];
        assert a + [] == a;
      } else {
        assert Without(order, gone) == a + [x];
        WithoutSnoc(a, x, more);
      }
    }
  }
}
