/** The relay clients' connection table: a JavaScript `Map` from device to connection record. */
module ConnectionTables {
  import opened Wrappers

  const MAX_CONNECTIONS := 7
  const MAX_INBOUND_CONNECTIONS := 7

  type DeviceId = string
  type NodeId = string

  datatype Direction = Outbound | Inbound

  /** The identity of a connection record, with its unchanging fields and the session that made it. */
  datatype Conn = Conn(id: nat, device: DeviceId, direction: Direction, session: nat)

  /** A JavaScript `Map` from device to record, in insertion order. */
  type Table = seq<Conn>

  ghost predicate DistinctDevices(t: Table) {
    forall i, j :: 0 <= i < j < |t| ==> t[i].device != t[j].device
  }

  function Find(t: Table, d: DeviceId): (r: Option<Conn>)
    ensures r.Some? ==> r.value in t && r.value.device == d
    ensures r.None? ==> forall c :: c in t ==> c.device != d
  {
    if t == [] then None else if t[0].device == d then Some(t[0]) else Find(t[1..], d)
  }

  function Minus(t: Table, c: Conn): (r: Table)
    ensures (forall x :: x in r ==> x in t && x != c) && (forall x :: x in t && x != c ==> x in r)
    ensures c !in t ==> r == t
  {
    if t == [] then [] else if t[0] == c then Minus(t[1..], c) else [t[0]] + Minus(t[1..], c)
  }

  // Deleting an entry leaves the others in their places.
  lemma {:induction false} MinusKeepsOrder(t: Table, i: nat)
    requires i < |t| && forall j, k :: 0 <= j < k < |t| ==> t[j] != t[k]
    ensures Minus(t, t[i]) == t[..i] + t[i + 1..]
  {
    hide Minus;
    MinusStep(t, t[i]);
    if i == 0 {
      assert t[0] !in t[1..];
    } else {
      assert t[0] != t[i];
      MinusKeepsOrder(t[1..], i - 1);
      assert t[1..][i - 1] == t[i] && t[1..][..i - 1] == t[1..i] && t[1..][i..] == t[i + 1..];
      assert [t[0]] + (t[1..i] + t[i + 1..]) == t[..i] + t[i + 1..];
    }
  }

  lemma MinusStep(t: Table, c: Conn)
    requires t != []
    ensures Minus(t, c) == if t[0] == c then Minus(t[1..], c) else [t[0]] + Minus(t[1..], c)
    ensures c !in t[1..] ==> Minus(t[1..], c) == t[1..]
  {
  }

  function Count(t: Table, d: Direction): nat {
    if t == [] then 0 else (if t[0].direction == d then 1 else 0) + Count(t[1..], d)
  }

  /** The oldest inbound entry, or the table's end. */
  function FirstInbound(t: Table): (i: nat)
    ensures i <= |t|
    ensures i < |t| ==> t[i].direction == Inbound
  {
    if t == [] || t[0].direction == Inbound then 0 else 1 + FirstInbound(t[1..])
  }

  lemma {:induction false} OutboundBefore(t: Table, k: nat)
    requires k < FirstInbound(t)
    ensures t[k].direction == Outbound
  {
    if k > 0 {
      OutboundBefore(t[1..], k - 1);
    }
  }

  function EvictOldestInboundIfFull(t: Table): Table {
    if Count(t, Inbound) < MAX_INBOUND_CONNECTIONS then t
    else
      var i := FirstInbound(t);
      if i < |t| then Minus(t, t[i]) else t
  }

  lemma {:induction false} MinusIsDistinct(t: Table, c: Conn)
    requires DistinctDevices(t)
    ensures DistinctDevices(Minus(t, c))
  {
    hide DistinctDevices;
    if t == [] {
      assert Minus(t, c) == [];
      EmptyIsDistinct();
    } else {
      TailIsDistinct(t);
      MinusIsDistinct(t[1..], c);
      var rest := Minus(t[1..], c);
      forall j | 0 <= j < |rest|
        ensures rest[j].device != t[0].device
      {
        assert rest[j] in t[1..];
      }
      PrependDistinct(t[0], rest);
      assert Minus(t, c) == if t[0] == c then rest else [t[0]] + rest;
    }
  }

  lemma EmptyIsDistinct()
    ensures DistinctDevices([])
  {
  }

  lemma TailIsDistinct(t: Table)
    requires DistinctDevices(t) && t != []
    ensures DistinctDevices(t[1..]) && forall c :: c in t[1..] ==> c.device != t[0].device
  {
  }

  lemma PrependDistinct(c: Conn, t: Table)
    requires DistinctDevices(t) && forall j :: 0 <= j < |t| ==> t[j].device != c.device
    ensures DistinctDevices([c] + t)
  {
  }

  lemma {:induction false} CountMinus(t: Table, c: Conn, d: Direction)
    requires DistinctDevices(t)
    ensures Count(Minus(t, c), d) == Count(t, d) - if c in t && c.direction == d then 1 else 0
  {
    if t != [] {
      CountMinus(t[1..], c, d);
      assert t[0] !in t[1..];
      if t[0] != c {
        assert ([t[0]] + Minus(t[1..], c))[1..] == Minus(t[1..], c);
      }
    }
  }

  lemma MinusKeepsShape(t: Table, c: Conn)
    requires DistinctDevices(t)
    ensures DistinctDevices(Minus(t, c))
    ensures Count(Minus(t, c), Outbound) == Count(t, Outbound) - if c in t && c.direction == Outbound then 1 else 0
    ensures Count(Minus(t, c), Inbound) == Count(t, Inbound) - if c in t && c.direction == Inbound then 1 else 0
  {
    MinusIsDistinct(t, c);
    CountMinus(t, c, Outbound);
    CountMinus(t, c, Inbound);
  }

  lemma {:induction false} CountSnoc(t: Table, c: Conn, d: Direction)
    ensures Count(t + [c], d) == Count(t, d) + if c.direction == d then 1 else 0
  {
    if t == [] {
      assert t + [c] == [c];
    } else {
      assert (t + [c])[1..] == t[1..] + [c];
      CountSnoc(t[1..], c, d);
    }
  }

  lemma {:induction false} NoInbound(t: Table)
    ensures FirstInbound(t) == |t| ==> Count(t, Inbound) == 0
  {
    if t != [] {
      NoInbound(t[1..]);
    }
  }

  // At capacity, and only then, exactly the longest-standing inbound entry goes.
  lemma EvictionIsOldestFirst(t: Table)
    requires DistinctDevices(t)
    ensures var r := EvictOldestInboundIfFull(t);
            && DistinctDevices(r)
            && Count(r, Outbound) == Count(t, Outbound)
            && (Count(t, Inbound) < 7 ==> r == t)
            && (Count(t, Inbound) >= 7 ==>
                  Count(r, Inbound) == Count(t, Inbound) - 1 &&
                  exists i :: 0 <= i < |t| && t[i].direction == Inbound && r == t[..i] + t[i + 1..] &&
                              (forall k :: 0 <= k < i ==> t[k].direction == Outbound))
  {
    hide DistinctDevices, Count, FirstInbound;
    var i := FirstInbound(t);
    NoInbound(t);
    forall k | 0 <= k < i
      ensures t[k].direction == Outbound
    {
      OutboundBefore(t, k);
    }
    if i < |t| {
      MinusKeepsShape(t, t[i]);
      DistinctRecords(t);
      MinusKeepsOrder(t, i);
    }
  }

  lemma DistinctRecords(t: Table)
    requires DistinctDevices(t)
    ensures forall j, k :: 0 <= j < k < |t| ==> t[j] != t[k]
  {
  }

  lemma NoTwin(t: Table, c: Conn)
    requires DistinctDevices(t) && c in t
    ensures Find(Minus(t, c), c.device).None?
  {
  }
}
