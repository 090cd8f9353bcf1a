/**
 * Insertion-ordered maps with oldest-first eviction: what a JavaScript `Map` gives the repository's
 * bounded tables, and the shared `BoundedFifoMap` built on it.
 */
module FifoMaps {
  import opened Wrappers

  function Without<K(==)>(order: seq<K>, k: K): (rest: seq<K>)
    ensures (forall x :: x in rest ==> x in order && x != k) && (forall x :: x in order && x != k ==> x in rest)
    ensures |rest| <= |order|
    ensures k !in order ==> rest == order
  {
    if order == [] then []
    else if order[0] == k then Without(order[1..], k)
    else [order[0]] + Without(order[1..], k)
  }

  predicate Distinct<K(==)>(s: seq<K>) {
    forall i, j :: 0 <= i < j < |s| ==> s[i] != s[j]
  }

  /** What is left of an order when these keys stay. */
  function Restricted<K(==)>(order: seq<K>, keys: set<K>): seq<K> {
    if order == [] then []
    else (if order[0] in keys then [order[0]] else []) + Restricted(order[1..], keys)
  }

  lemma {:induction false} WithoutIsRestricted<K>(order: seq<K>, k: K, keys: set<K>)
    requires forall x :: x in order ==> (x in keys <==> x != k)
    ensures Without(order, k) == Restricted(order, keys)
  {
    if order != [] {
      WithoutIsRestricted(order[1..], k, keys);
    }
  }

  lemma {:induction false} AllRestricted<K>(order: seq<K>, keys: set<K>)
    requires forall x :: x in order ==> x in keys
    ensures Restricted(order, keys) == order
  {
    if order != [] {
      AllRestricted(order[1..], keys);
    }
  }

  lemma {:induction false} RestrictedTwice<K>(order: seq<K>, some: set<K>, fewer: set<K>)
    requires fewer <= some
    ensures Restricted(Restricted(order, some), fewer) == Restricted(order, fewer)
  {
    if order != [] {
      RestrictedTwice(order[1..], some, fewer);
      var rest := Restricted(order[1..], some);
      if order[0] in some {
        assert Restricted(order, some) == [order[0]] + rest && ([order[0]] + rest)[1..] == rest;
      } else {
        assert Restricted(order, some) == rest;
      }
    }
  }

  lemma {:induction false} RestrictedAppend<K>(a: seq<K>, b: seq<K>, keys: set<K>)
    ensures Restricted(a + b, keys) == Restricted(a, keys) + Restricted(b, keys)
  {
    hide Restricted;
    if a == [] {
      assert a + b == b;
      RestrictedNothing(keys);
    } else {
      assert (a + b)[1..] == a[1..] + b && (a + b)[0] == a[0];
      RestrictedStep(a, keys);
      RestrictedStep(a + b, keys);
      RestrictedAppend(a[1..], b, keys);
    }
  }

  lemma RestrictedNothing<K>(keys: set<K>)
    ensures Restricted([], keys) == []
  {
  }

  lemma RestrictedStep<K>(order: seq<K>, keys: set<K>)
    requires order != []
    ensures Restricted(order, keys) ==
            (if order[0] in keys then [order[0]] else []) + Restricted(order[1..], keys)
  {
  }

  datatype FifoMap<K(==), V> = FifoMap(entries: map<K, V>, order: seq<K>) {
    ghost predicate Valid() {
      Distinct(order) && (forall k :: k in order ==> k in entries) && (forall k :: k in entries ==> k in order)
    }

    function Put(k: K, v: V): (m: FifoMap<K, V>)
      requires Valid()
      ensures m.Valid() && m.entries == entries[k := v]
      ensures |m.order| == if k in entries then |order| else |order| + 1
    {
      FifoMap(entries[k := v], if k in entries then order else order + [k])
    }

    function Drop(k: K): (m: FifoMap<K, V>)
      requires Valid()
      ensures m.Valid() && m.entries == entries - {k}
      ensures |m.order| == if k in entries then |order| - 1 else |order|
    {
      WithoutOne(order, k);
      FifoMap(entries - {k}, Without(order, k))
    }

    /** Makes room for one more key by dropping the oldest, when there are already `max`. */
    function MakeRoom(max: nat): (m: FifoMap<K, V>)
      requires Valid()
      ensures m.Valid() && (m == this || (|order| >= max && order != [] && m == Drop(order[0])))
      ensures 0 < max && |order| <= max ==> |m.order| < max
    {
      if |order| >= max && order != [] then Drop(order[0]) else this
    }
  }

  lemma {:induction false} WithoutOne<K>(order: seq<K>, k: K)
    requires Distinct(order)
    ensures Distinct(Without(order, k))
    ensures |Without(order, k)| == if k in order then |order| - 1 else |order|
  {
    if order != [] {
      WithoutOne(order[1..], k);
      assert order[0] !in order[1..];
    }
  }

  // A map changed by setting and deleting keys holds them in the order they first came in: what remains
  // stays in place, a new key comes last, and setting an old one again does not move it.
  lemma PutKeepsOrder<K, V>(m: FifoMap<K, V>, k: K, v: V)
    requires m.Valid()
    ensures m.Put(k, v).order == m.order + if k in m.entries then [] else [k]
  {
  }

  lemma DropKeepsOrder<K, V>(m: FifoMap<K, V>, k: K)
    requires m.Valid()
    ensures m.Drop(k).order == Restricted(m.order, m.Drop(k).entries.Keys)
  {
    WithoutIsRestricted(m.order, k, m.Drop(k).entries.Keys);
  }

  lemma SubsetSize<K>(a: set<K>, b: set<K>)
    requires a <= b
    ensures |a| <= |b|
  {
    assert b == a + (b - a);
  }

  lemma SizeIsOrder<K, V>(m: FifoMap<K, V>)
    requires m.Valid()
    ensures |m.entries| == |m.order|
    decreases |m.order|
  {
    if m.order == [] {
      assert m.entries == map[];
    } else {
      SizeIsOrder(m.Drop(m.order[0]));
    }
  }
}
