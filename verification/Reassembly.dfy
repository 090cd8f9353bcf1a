/**
 * The fragment reassembler: its table of partial messages, what any input whatever can do to it, and
 * which bytes of the history a returned message is made of.
 */
module Reassembly {
  import opened Wrappers
  import opened Bytes
  import opened FifoMaps
  import opened Fragments

  // ---------------------------------------------------------------- the table

  datatype Entry = Entry(chunks: map<nat, Octets>, total: nat, bytesSoFar: nat)

  type Table = FifoMap<Byte, Entry>

  const EMPTY: Table := FifoMap(map[], [])

  /** The parts 0 .. n-1 joined, if all of them are there. */
  function PartsUpTo(chunks: map<nat, Octets>, n: nat): Option<Octets> {
    if n == 0 then Some([])
    else
      var before := PartsUpTo(chunks, n - 1);
      if before.Some? && n - 1 in chunks then Some(before.value + chunks[n - 1]) else None
  }

  datatype Added = Added(table: Table, message: Option<Octets>)

  function Store(lim: Limits, t: Table, f: Parsed): Added
    requires t.Valid() && f.Fragment? && f.msgId in t.entries
  {
    var e := t.entries[f.msgId];
    var isNew := f.index !in e.chunks;
    var counted := if lim.cap.Some? && isNew then e.bytesSoFar + |f.payload| else e.bytesSoFar;
    if lim.cap.Some? && isNew && counted > lim.cap.value then Added(t.Drop(f.msgId), None)
    else
      var grown := Entry(e.chunks[f.index := f.payload], e.total, counted);
      var stored := t.Put(f.msgId, grown);
      if |grown.chunks| < grown.total then Added(stored, None)
      else
        var message := PartsUpTo(grown.chunks, grown.total);
        if message.None? then Added(stored, None) else Added(stored.Drop(f.msgId), message)
  }

  function Add(lim: Limits, t: Table, f: Parsed): (a: Added)
    requires t.Valid()
    ensures a.table.Valid()
  {
    if f.Malformed? then Added(t, None)
    else if f.msgId !in t.entries then
      Store(lim, t.MakeRoom(lim.slots).Put(f.msgId, Entry(map[], f.total, 0)), f)
    else if lim.checksTotal && t.entries[f.msgId].total != f.total then Added(t, None)
    else Store(lim, t, f)
  }

  class FragmentReassembler {
    const limits: Limits
    var entries: Table

    constructor (limits: Limits)
      ensures this.limits == limits && entries == EMPTY
    {
      this.limits := limits;
      entries := EMPTY;
    }

    method AddFragment(bytes: Octets) returns (message: Option<Octets>)
      requires entries.Valid()
      modifies this
      ensures entries.Valid() && Added(entries, message) == Add(limits, old(entries), Parse(bytes))
    {
      hide Parse, Store;
      var f := Parse(bytes);
      if f.Malformed? { return None; }
      if f.msgId !in entries.entries {
        entries := entries.MakeRoom(limits.slots);
        entries := entries.Put(f.msgId, Entry(map[], f.total, 0));
      } else if limits.checksTotal && entries.entries[f.msgId].total != f.total {
        return None;
      }
      message := StoreFragment(f);
    }

    /** The part of `addFragment` after the entry of the message has been found or made. */
    method StoreFragment(f: Parsed) returns (message: Option<Octets>)
      requires entries.Valid() && f.Fragment? && f.msgId in entries.entries
      modifies this
      ensures entries.Valid() && Added(entries, message) == Store(limits, old(entries), f)
    {
      hide PartsUpTo, Without, FifoMap.Drop, FifoMap.Put;
      var entry := entries.entries[f.msgId];
      var isNew := f.index !in entry.chunks;
      if limits.cap.Some? && isNew {
        entry := entry.(bytesSoFar := entry.bytesSoFar + |f.payload|);
        if entry.bytesSoFar > limits.cap.value {
          entries := entries.Drop(f.msgId);
          return None;
        }
      }
      entry := entry.(chunks := entry.chunks[f.index := f.payload]);
      entries := entries.Put(f.msgId, entry);
      if |entry.chunks| < entry.total { return None; }
      message := JoinParts(entry.chunks, entry.total);
      if message.Some? { entries := entries.Drop(f.msgId); }
    }
  }

  method JoinParts(chunks: map<nat, Octets>, total: nat) returns (message: Option<Octets>)
    ensures message == PartsUpTo(chunks, total)
  {
    var joined: Octets := [];
    for i := 0 to total
      invariant PartsUpTo(chunks, i) == Some(joined)
    {
      if i !in chunks {
        MissingPart(chunks, i, total);
        return None;
      }
      joined := joined + chunks[i];
    }
    return Some(joined);
  }

  lemma {:induction false} MissingPart(chunks: map<nat, Octets>, i: nat, n: nat)
    requires i < n && i !in chunks
    ensures PartsUpTo(chunks, n) == None
  {
    if i < n - 1 {
      MissingPart(chunks, i, n - 1);
    }
  }

  // ---------------------------------------------------------------- bounds for every input

  predicate EntryOk(lim: Limits, e: Entry) {
    && 0 < e.total <= MAX_FRAGMENTS_PER_MESSAGE
    && (lim.checksTotal ==> |e.chunks| < e.total && forall i :: i in e.chunks ==> i < e.total)
    && (lim.cap.Some? ==> e.bytesSoFar <= lim.cap.value)
  }

  ghost predicate Inv(lim: Limits, t: Table) {
    t.Valid() && |t.order| <= lim.slots && forall id :: id in t.entries ==> EntryOk(lim, t.entries[id])
  }

  // n distinct indices below n are all of them.
  lemma {:induction false} AllIndices(keys: set<nat>, n: nat)
    requires forall i :: i in keys ==> i < n
    ensures |keys| <= n && (|keys| == n ==> forall i :: 0 <= i < n ==> i in keys)
  {
    if n == 0 {
      assert keys == {};
    } else {
      AllIndices(keys - {n - 1}, n - 1);
    }
  }

  lemma {:induction false} AllPartsJoin(chunks: map<nat, Octets>, n: nat)
    requires forall i :: 0 <= i < n ==> i in chunks
    ensures PartsUpTo(chunks, n).Some?
  {
    if n > 0 {
      AllPartsJoin(chunks, n - 1);
    }
  }

  // Whatever arrives, malformed or hostile, the table keeps its bounds: at most `slots` partial
  // messages, each with fewer than `total` chunks, indices below `total` and at most `cap` counted
  // bytes. The counted bytes are the sum of the first arrivals (see `EntryIsHistory`).
  lemma AddKeepsBounds(lim: Limits, t: Table, f: Parsed)
    requires lim.slots > 0 && Inv(lim, t)
    requires f.Fragment? ==> f.index < f.total <= MAX_FRAGMENTS_PER_MESSAGE
    ensures Inv(lim, Add(lim, t, f).table)
  {
    if f.Fragment? {
      var isNew := f.msgId !in t.entries;
      var s := if isNew then t.MakeRoom(lim.slots).Put(f.msgId, Entry(map[], f.total, 0)) else t;
      if isNew || !lim.checksTotal || t.entries[f.msgId].total == f.total {
        StoreKeepsBounds(lim, s, f);
      }
    }
  }

  lemma StoreKeepsBounds(lim: Limits, t: Table, f: Parsed)
    requires f.Fragment? && t.Valid() && |t.order| <= lim.slots && f.msgId in t.entries
    requires forall id :: id in t.entries && id != f.msgId ==> EntryOk(lim, t.entries[id])
    requires var e := t.entries[f.msgId];
             && 0 < e.total <= MAX_FRAGMENTS_PER_MESSAGE
             && (lim.checksTotal ==> f.index < e.total && forall i :: i in e.chunks ==> i < e.total)
             && (lim.cap.Some? ==> e.bytesSoFar <= lim.cap.value)
    ensures Inv(lim, Store(lim, t, f).table)
  {
    var e := t.entries[f.msgId];
    var chunks := e.chunks[f.index := f.payload];
    if lim.checksTotal && |chunks| >= e.total {
      AllIndices(chunks.Keys, e.total);
      AllPartsJoin(chunks, e.total);
    }
  }

  // ---------------------------------------------------------------- one call, entry by entry

  /** The entry a fragment is added to: the one in the table, or a fresh one. */
  function EntryFor(t: Table, f: Parsed): Entry
    requires f.Fragment?
  {
    if f.msgId in t.entries then t.entries[f.msgId] else Entry(map[], f.total, 0)
  }

  predicate Accepted(lim: Limits, t: Table, f: Parsed) {
    f.Fragment? && (lim.checksTotal ==> EntryFor(t, f).total == f.total)
  }

  function GrownEntry(lim: Limits, t: Table, f: Parsed): Entry
    requires f.Fragment?
  {
    var e := EntryFor(t, f);
    Entry(e.chunks[f.index := f.payload], e.total,
          if lim.cap.Some? && f.index !in e.chunks then e.bytesSoFar + |f.payload| else e.bytesSoFar)
  }

  lemma OtherEntriesStay(lim: Limits, t: Table, f: Parsed, id: Byte)
    requires t.Valid() && id in Add(lim, t, f).table.entries
    requires !(Accepted(lim, t, f) && f.msgId == id)
    ensures id in t.entries && Add(lim, t, f).table.entries[id] == t.entries[id]
  {
    hide Store;
    if f.Fragment? && f.msgId != id {
      if f.msgId in t.entries {
        StoreLeavesOthers(lim, t, f, id);
      } else {
        StoreLeavesOthers(lim, t.MakeRoom(lim.slots).Put(f.msgId, Entry(map[], f.total, 0)), f, id);
      }
    }
  }

  lemma StoreLeavesOthers(lim: Limits, t: Table, f: Parsed, id: Byte)
    requires t.Valid() && f.Fragment? && f.msgId in t.entries && f.msgId != id
    ensures id in Store(lim, t, f).table.entries ==>
              id in t.entries && Store(lim, t, f).table.entries[id] == t.entries[id]
  {
    hide PartsUpTo;
  }

  lemma OwnEntryGrows(lim: Limits, t: Table, f: Parsed)
    requires t.Valid() && Accepted(lim, t, f)
    ensures var a := Add(lim, t, f);
            f.msgId in a.table.entries ==> a.message == None && a.table.entries[f.msgId] == GrownEntry(lim, t, f)
  {
    hide PartsUpTo, Store;
    var s := if f.msgId in t.entries then t else t.MakeRoom(lim.slots).Put(f.msgId, Entry(map[], f.total, 0));
    assert Add(lim, t, f) == Store(lim, s, f);
    StoredEntry(lim, s, f);
  }

  lemma StoredEntry(lim: Limits, t: Table, f: Parsed)
    requires t.Valid() && f.Fragment? && f.msgId in t.entries
    ensures var a := Store(lim, t, f);
            f.msgId in a.table.entries ==> a.message == None && a.table.entries[f.msgId] == GrownEntry(lim, t, f)
  {
    hide PartsUpTo;
  }

  lemma MessageIsGrownEntry(lim: Limits, t: Table, f: Parsed)
    requires t.Valid() && Add(lim, t, f).message.Some?
    ensures Accepted(lim, t, f) && f.msgId !in Add(lim, t, f).table.entries
    ensures var e := GrownEntry(lim, t, f);
            && Add(lim, t, f).message == PartsUpTo(e.chunks, e.total)
            && (lim.cap.Some? && f.index !in EntryFor(t, f).chunks ==> e.bytesSoFar <= lim.cap.value)
  {
    hide PartsUpTo, Store;
    var s := if f.msgId in t.entries then t else t.MakeRoom(lim.slots).Put(f.msgId, Entry(map[], f.total, 0));
    assert Add(lim, t, f) == Store(lim, s, f);
    CompletedEntry(lim, s, f);
  }

  lemma CompletedEntry(lim: Limits, t: Table, f: Parsed)
    requires t.Valid() && f.Fragment? && f.msgId in t.entries && Store(lim, t, f).message.Some?
    ensures var a, e := Store(lim, t, f), GrownEntry(lim, t, f);
            && f.msgId !in a.table.entries && a.message == PartsUpTo(e.chunks, e.total)
            && (lim.cap.Some? && f.index !in EntryFor(t, f).chunks ==> e.bytesSoFar <= lim.cap.value)
  {
    hide PartsUpTo;
  }

  /** `after` is `before` with the entry of `id` replaced by `e`, or removed. */
  ghost predicate OneEntryChanged(before: map<Byte, Entry>, after: map<Byte, Entry>, id: Byte, e: Option<Entry>) {
    && (forall k :: k in before && k != id ==> k in after && after[k] == before[k])
    && (forall k :: k in after && k != id ==> k in before)
    && (if e.Some? then id in after && after[id] == e.value else id !in after)
  }

  ghost predicate Fits(lim: Limits, before: map<Byte, Entry>, a: Added, id: Byte, e: Entry) {
    var whole := if |e.chunks| < e.total then None else PartsUpTo(e.chunks, e.total);
    a.message == whole && OneEntryChanged(before, a.table.entries, id, if whole.None? then Some(e) else None)
  }

  // A fragment that fits neither evicts nor is dropped: it grows its own entry, or completes it.
  lemma FittingFragment(lim: Limits, t: Table, f: Parsed)
    requires t.Valid() && Accepted(lim, t, f)
    requires f.msgId !in t.entries ==> t.MakeRoom(lim.slots) == t
    requires lim.cap.Some? ==> GrownEntry(lim, t, f).bytesSoFar <= lim.cap.value
    ensures Fits(lim, t.entries, Add(lim, t, f), f.msgId, GrownEntry(lim, t, f))
  {
    hide PartsUpTo, Store;
    var e := GrownEntry(lim, t, f);
    var s := if f.msgId in t.entries then t else t.Put(f.msgId, Entry(map[], f.total, 0));
    assert Add(lim, t, f) == Store(lim, s, f);
    StoreFits(lim, s, f, e);
  }

  lemma StoreFits(lim: Limits, t: Table, f: Parsed, e: Entry)
    requires t.Valid() && f.Fragment? && f.msgId in t.entries
    requires e == GrownEntry(lim, t, f) && (lim.cap.Some? ==> e.bytesSoFar <= lim.cap.value)
    ensures Fits(lim, t.entries, Store(lim, t, f), f.msgId, e)
  {
    hide PartsUpTo;
  }

  // ---------------------------------------------------------------- what one call leaves behind

  // A fragment that is malformed, or of another total than its message's, leaves everything as it was.
  lemma RejectedChangesNothing(lim: Limits, t: Table, f: Parsed)
    requires t.Valid() && !Accepted(lim, t, f)
    ensures Add(lim, t, f) == Added(t, None)
  {
  }

  /** The fragment is new and would bring its message over the cap. */
  predicate Overflows(lim: Limits, t: Table, f: Parsed)
    requires f.Fragment?
  {
    lim.cap.Some? && f.index !in EntryFor(t, f).chunks && GrownEntry(lim, t, f).bytesSoFar > lim.cap.value
  }

  /** What the call returns: the whole message, if the fragment completes it. */
  function Whole(lim: Limits, t: Table, f: Parsed): Option<Octets>
    requires f.Fragment?
  {
    var e := GrownEntry(lim, t, f);
    if Overflows(lim, t, f) || |e.chunks| < e.total then None else PartsUpTo(e.chunks, e.total)
  }

  /** The call opens a message in a full table. */
  predicate NeedsRoom(lim: Limits, t: Table, f: Parsed) {
    Accepted(lim, t, f) && f.msgId !in t.entries && |t.order| >= lim.slots && t.order != []
  }

  // A partial message leaves the table exactly if this fragment completes it or brings it over the cap,
  // or if it is the oldest and a new message needs its slot. All others are left as they were.
  lemma EntryLeavesExactly(lim: Limits, t: Table, f: Parsed, id: Byte)
    requires t.Valid() && id in t.entries
    ensures var after := Add(lim, t, f).table.entries;
            && (id !in after <==>
                  if f.Fragment? && id == f.msgId
                  then Accepted(lim, t, f) && (Overflows(lim, t, f) || Whole(lim, t, f).Some?)
                  else NeedsRoom(lim, t, f) && id == t.order[0])
            && (id in after && !(Accepted(lim, t, f) && id == f.msgId) ==> after[id] == t.entries[id])
  {
    hide Add, Whole, Overflows;
    if Accepted(lim, t, f) {
      AcceptedExactly(lim, t, f);
    } else {
      RejectedChangesNothing(lim, t, f);
    }
  }

  /** The entries that are still there when the fragment's own has a slot. */
  function Others(lim: Limits, t: Table, f: Parsed): map<Byte, Entry> {
    if NeedsRoom(lim, t, f) then t.entries - {t.order[0]} else t.entries
  }

  lemma AcceptedExactly(lim: Limits, t: Table, f: Parsed)
    requires t.Valid() && Accepted(lim, t, f)
    ensures var a, whole := Add(lim, t, f), Whole(lim, t, f);
            && a.message == whole
            && a.table.entries ==
               (if Overflows(lim, t, f) || whole.Some? then Others(lim, t, f) - {f.msgId}
                else (Others(lim, t, f) - {f.msgId})[f.msgId := GrownEntry(lim, t, f)])
  {
    hide Add, Store, Whole, Overflows, Others, GrownEntry;
    var s := Opened(lim, t, f);
    OpenedHolds(lim, t, f);
    StoreExactly(lim, s, f);
    WholeOfOpened(lim, t, s, f);
  }

  /** The table in which the fragment's own message has a slot. */
  function Opened(lim: Limits, t: Table, f: Parsed): (s: Table)
    requires t.Valid() && f.Fragment?
    ensures s.Valid() && f.msgId in s.entries
  {
    if f.msgId in t.entries then t else t.MakeRoom(lim.slots).Put(f.msgId, Entry(map[], f.total, 0))
  }

  lemma OpenedHolds(lim: Limits, t: Table, f: Parsed)
    requires t.Valid() && Accepted(lim, t, f)
    ensures Add(lim, t, f) == Store(lim, Opened(lim, t, f), f)
    ensures Opened(lim, t, f).entries - {f.msgId} == Others(lim, t, f) - {f.msgId}
    ensures EntryFor(Opened(lim, t, f), f) == EntryFor(t, f)
  {
    hide Store, Without;
    assert t.order != [] ==> t.order[0] in t.entries;
  }

  lemma WholeOfOpened(lim: Limits, t: Table, s: Table, f: Parsed)
    requires f.Fragment? && EntryFor(s, f) == EntryFor(t, f)
    ensures GrownEntry(lim, s, f) == GrownEntry(lim, t, f) && Whole(lim, s, f) == Whole(lim, t, f)
    ensures Overflows(lim, s, f) == Overflows(lim, t, f)
  {
    hide PartsUpTo, EntryFor;
  }

  lemma StoreExactly(lim: Limits, t: Table, f: Parsed)
    requires t.Valid() && f.Fragment? && f.msgId in t.entries
    ensures var a, whole := Store(lim, t, f), Whole(lim, t, f);
            && a.message == whole
            && a.table.entries ==
               (if Overflows(lim, t, f) || whole.Some? then t.entries - {f.msgId}
                else (t.entries - {f.msgId})[f.msgId := GrownEntry(lim, t, f)])
  {
    hide PartsUpTo;
  }

  // The messages that stay keep their order, so the next one to make room is again the oldest; a new
  // one comes last.
  lemma AddKeepsOrder(lim: Limits, t: Table, f: Parsed)
    requires t.Valid()
    ensures var a := Add(lim, t, f);
            var comes := if Accepted(lim, t, f) && f.msgId !in t.entries then [f.msgId] else [];
            a.table.order == Restricted(t.order + comes, a.table.entries.Keys)
  {
    hide Store, PartsUpTo, Without, Restricted;
    if !Accepted(lim, t, f) {
      AllRestricted(t.order, t.entries.Keys);
      assert t.order + [] == t.order;
    } else if f.msgId in t.entries {
      StoreKeepsOrder(lim, t, f);
      assert t.order + [] == t.order;
    } else {
      var room := t.MakeRoom(lim.slots);
      var s := room.Put(f.msgId, Entry(map[], f.total, 0));
      RoomKeepsOrder(t, lim.slots);
      StoreKeepsOrder(lim, s, f);
      assert s.entries.Keys - {f.msgId} == room.entries.Keys;
      NewComesLast(t, s, f.msgId);
      RestrictedTwice(t.order + [f.msgId], s.entries.Keys, Store(lim, s, f).table.entries.Keys);
    }
  }

  lemma RoomKeepsOrder(t: Table, slots: nat)
    requires t.Valid()
    ensures t.MakeRoom(slots).order == Restricted(t.order, t.MakeRoom(slots).entries.Keys)
    ensures t.MakeRoom(slots).entries.Keys <= t.entries.Keys
  {
    hide Without, Restricted;
    if t.MakeRoom(slots) == t {
      AllRestricted(t.order, t.entries.Keys);
    } else {
      DropKeepsOrder(t, t.order[0]);
    }
  }

  lemma NewComesLast(t: Table, s: Table, id: Byte)
    requires t.Valid() && s.Valid() && id !in t.entries && id in s.entries
    requires s.order == Restricted(t.order, s.entries.Keys - {id}) + [id]
    ensures s.order == Restricted(t.order + [id], s.entries.Keys)
  {
    hide Restricted;
    RestrictedAppend(t.order, [id], s.entries.Keys);
    AllRestricted([id], s.entries.Keys);
    SameRestricted(t.order, s.entries.Keys - {id}, s.entries.Keys);
  }

  lemma {:induction false} SameRestricted(order: seq<Byte>, a: set<Byte>, b: set<Byte>)
    requires forall x :: x in order ==> (x in a <==> x in b)
    ensures Restricted(order, a) == Restricted(order, b)
  {
    if order != [] {
      SameRestricted(order[1..], a, b);
    }
  }

  lemma StoreKeepsOrder(lim: Limits, t: Table, f: Parsed)
    requires t.Valid() && f.Fragment? && f.msgId in t.entries
    ensures var a := Store(lim, t, f);
            a.table.order == Restricted(t.order, a.table.entries.Keys) && a.table.entries.Keys <= t.entries.Keys
  {
    hide Store, Restricted, Without, GrownEntry, FifoMap.Drop, FifoMap.Put;
    var grown := t.Put(f.msgId, GrownEntry(lim, t, f));
    StoreIsOneOf(lim, t, f);
    PutKeepsOrder(t, f.msgId, GrownEntry(lim, t, f));
    assert t.order + [] == t.order && grown.entries.Keys == t.entries.Keys;
    AllRestricted(t.order, t.entries.Keys);
    DropKeepsOrder(t, f.msgId);
    DropKeepsOrder(grown, f.msgId);
  }

  lemma StoreIsOneOf(lim: Limits, t: Table, f: Parsed)
    requires t.Valid() && f.Fragment? && f.msgId in t.entries
    ensures var s, grown := Store(lim, t, f).table, t.Put(f.msgId, GrownEntry(lim, t, f));
            s == t.Drop(f.msgId) || s == grown || s == grown.Drop(f.msgId)
  {
    hide PartsUpTo, FifoMap.Drop, FifoMap.Put, Without, Distinct;
    var e := t.entries[f.msgId];
    assert GrownEntry(lim, t, f).chunks == e.chunks[f.index := f.payload];
  }
}
