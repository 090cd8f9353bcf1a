/** The repository's bounded map: a new key beyond capacity evicts the lowest-ranked entry. */
module BoundedMaps {
  import opened FifoMaps
  import opened Wrappers

  /** The position of the lowest score, the earliest of equals: plain insertion order if all are equal. */
  function Lowest<K>(order: seq<K>, score: K -> int): (i: nat)
    requires order != []
    ensures i < |order|
  {
    var n := |order| - 1;
    if n == 0 then 0
    else
      var i := Lowest(order[..n], score);
      if score(order[n]) < score(order[i]) then n else i
  }

  lemma {:induction false} LowestIsLowest<K>(order: seq<K>, score: K -> int, k: nat)
    requires k < |order|
    ensures var i := Lowest(order, score);
            score(order[i]) <= score(order[k]) && (k < i ==> score(order[i]) < score(order[k]))
  {
    var n := |order| - 1;
    if k < n {
      LowestIsLowest(order[..n], score, k);
    }
  }

  /** The key that setting `k` throws out, if any. */
  function Evicted<K(==), V>(m: FifoMap<K, V>, max: nat, k: K, score: K -> int): (e: Option<K>)
    ensures e.Some? ==> e.value in m.order && k !in m.entries
  {
    if max == 0 || k in m.entries || |m.order| < max then None else Some(m.order[Lowest(m.order, score)])
  }

  function Set<K(==), V>(m: FifoMap<K, V>, max: nat, k: K, v: V, score: K -> int): (r: FifoMap<K, V>)
    requires m.Valid()
    ensures r.Valid()
  {
    var e := Evicted(m, max, k, score);
    if max == 0 then m else (if e.Some? then m.Drop(e.value) else m).Put(k, v)
  }

  // The size bound is unconditional, an existing key evicts nothing, and every other entry survives.
  lemma SetKeepsBound<K, V>(m: FifoMap<K, V>, max: nat, k: K, v: V, score: K -> int)
    requires m.Valid() && |m.order| <= max
    ensures var r, e := Set(m, max, k, v, score), Evicted(m, max, k, score);
            && |r.entries| <= max
            && (max > 0 ==> k in r.entries && r.entries[k] == v)
            && (forall x :: x in m.entries && x != k && Some(x) != e ==> x in r.entries && r.entries[x] == m.entries[x])
            && (forall x :: x in r.entries && x != k ==> x in m.entries && Some(x) != e)
  {
    var r := Set(m, max, k, v, score);
    if max > 0 {
      SizeIsOrder(r);
    } else {
      SizeIsOrder(m);
    }
  }

  // What stays keeps its place, a new key comes last, and setting an old one does not move it.
  lemma SetKeepsOrder<K, V>(m: FifoMap<K, V>, max: nat, k: K, v: V, score: K -> int)
    requires m.Valid() && max > 0
    ensures var r := Set(m, max, k, v, score);
            r.order == Restricted(m.order + if k in m.entries then [] else [k], r.entries.Keys)
  {
    hide Restricted, Without;
    var r, e := Set(m, max, k, v, score), Evicted(m, max, k, score);
    if k in m.entries {
      AllRestricted(m.order, r.entries.Keys);
      assert m.order + [] == m.order;
    } else {
      RestrictedAppend(m.order, [k], r.entries.Keys);
      AllRestricted([k], r.entries.Keys);
      if e.Some? {
        WithoutIsRestricted(m.order, e.value, r.entries.Keys);
      } else {
        AllRestricted(m.order, r.entries.Keys);
      }
    }
  }

  class BoundedFifoMap<K(==), V> {
    var contents: FifoMap<K, V>
    const maxSize: nat

    ghost predicate Valid()
      reads this
    {
      contents.Valid() && |contents.order| <= maxSize
    }

    constructor (maxSize: nat)
      ensures Valid() && this.maxSize == maxSize && contents == FifoMap(map[], [])
    {
      this.maxSize := maxSize;
      contents := FifoMap(map[], []);
    }

    method Get(k: K) returns (v: Option<V>)
      requires Valid()
      ensures v == if k in contents.entries then Some(contents.entries[k]) else None
    {
      v := if k in contents.entries then Some(contents.entries[k]) else None;
    }

    method Delete(k: K) returns (had: bool)
      requires Valid()
      modifies this
      ensures Valid() && contents == old(contents).Drop(k) && had == (k in old(contents).entries)
    {
      had := k in contents.entries;
      contents := contents.Drop(k);
    }

    /** Inserts or overwrites; returns the key that had to go, or `k` itself when nothing can be held. */
    method Put(k: K, v: V, score: K -> int) returns (evicted: Option<K>)
      requires Valid()
      modifies this
      ensures Valid() && contents == Set(old(contents), maxSize, k, v, score)
      ensures evicted == if maxSize == 0 then Some(k) else Evicted(old(contents), maxSize, k, score)
    {
      if maxSize == 0 { return Some(k); }
      evicted := None;
      if k !in contents.entries && |contents.order| >= maxSize {
        var victim := PickEvictionCandidate(score);
        contents := contents.Drop(victim);
        evicted := Some(victim);
      }
      contents := contents.Put(k, v);
    }

    method PickEvictionCandidate(score: K -> int) returns (best: K)
      requires Valid() && contents.order != []
      ensures best == contents.order[Lowest(contents.order, score)]
    {
      best := contents.order[0];
      assert contents.order[..1] == [contents.order[0]];
      for i := 1 to |contents.order|
        invariant best == contents.order[Lowest(contents.order[..i], score)]
      {
        assert contents.order[..i + 1][..i] == contents.order[..i];
        if score(contents.order[i]) < score(best) { best := contents.order[i]; }
      }
      assert contents.order[..|contents.order|] == contents.order;
    }
  }
}
