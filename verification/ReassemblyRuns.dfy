/**
 * Whole runs of the reassembler: where the bytes of its entries and messages come from, the round
 * trip with the sender, and the per-device tables of the Wi-Fi provisioning characteristic.
 */
module ReassemblyRuns {
  import opened Wrappers
  import opened Bytes
  import opened FifoMaps
  import opened Fragments
  import opened Reassembly

  /** Everything written to one reassembler so far, oldest first. */
  type History = seq<Octets>

  function TableAfter(lim: Limits, h: History): (t: Table)
    ensures t.Valid()
  {
    if h == [] then EMPTY else Add(lim, TableAfter(lim, h[..|h| - 1]), Parse(h[|h| - 1])).table
  }

  /** What the last write of the history returned. */
  function Output(lim: Limits, h: History): Option<Octets> {
    if h == [] then None else Add(lim, TableAfter(lim, h[..|h| - 1]), Parse(h[|h| - 1])).message
  }

  lemma NothingWritten(lim: Limits)
    ensures TableAfter(lim, []) == EMPTY
  {
  }

  lemma OneWrite(lim: Limits, h: History, x: Octets)
    ensures TableAfter(lim, h + [x]) == Add(lim, TableAfter(lim, h), Parse(x)).table
    ensures Output(lim, h + [x]) == Add(lim, TableAfter(lim, h), Parse(x)).message
  {
    assert (h + [x])[..|h|] == h;
  }

  lemma {:induction false} RunsKeepBounds(lim: Limits, h: History)
    requires lim.slots > 0
    ensures Inv(lim, TableAfter(lim, h))
  {
    if h != [] {
      RunsKeepBounds(lim, h[..|h| - 1]);
      AddKeepsBounds(lim, TableAfter(lim, h[..|h| - 1]), Parse(h[|h| - 1]));
    }
  }

  // ---------------------------------------------------------------- provenance

  /** The index of the write that created the entry the table now holds for `id`. */
  function Birth(lim: Limits, h: History, id: Byte): (b: nat)
    requires id in TableAfter(lim, h).entries
    ensures b < |h|
  {
    var past := h[..|h| - 1];
    if id in TableAfter(lim, past).entries then Birth(lim, past, id) else |h| - 1
  }

  predicate Matches(lim: Limits, bytes: Octets, id: Byte, total: nat) {
    var f := Parse(bytes);
    f.Fragment? && f.msgId == id && (lim.checksTotal ==> f.total == total)
  }

  /** For every index, the payload that arrived last. */
  function LatestChunks(lim: Limits, g: History, id: Byte, total: nat): map<nat, Octets> {
    if g == [] then map[]
    else
      var before := LatestChunks(lim, g[..|g| - 1], id, total);
      var f := Parse(g[|g| - 1]);
      if Matches(lim, g[|g| - 1], id, total) then before[f.index := f.payload] else before
  }

  /** The bytes of the payloads that were the first to arrive for their index. */
  function FirstArrivalBytes(lim: Limits, g: History, id: Byte, total: nat): nat {
    if g == [] then 0
    else
      var past := g[..|g| - 1];
      var f := Parse(g[|g| - 1]);
      FirstArrivalBytes(lim, past, id, total) +
      if Matches(lim, g[|g| - 1], id, total) && f.index !in LatestChunks(lim, past, id, total) then |f.payload| else 0
  }

  /** An entry is a function of the writes since its birth, and of nothing else. */
  ghost predicate EntryIsHistory(lim: Limits, h: History, id: Byte)
    requires id in TableAfter(lim, h).entries
  {
    var e := TableAfter(lim, h).entries[id];
    var b := Birth(lim, h, id);
    && Parse(h[b]).Fragment? && Parse(h[b]).msgId == id && Parse(h[b]).total == e.total
    && e.chunks == LatestChunks(lim, h[b..], id, e.total)
    && (lim.cap.Some? ==> e.bytesSoFar == FirstArrivalBytes(lim, h[b..], id, e.total))
  }

  lemma {:induction false} EntriesAreHistory(lim: Limits, h: History)
    requires lim.slots > 0
    ensures forall id :: id in TableAfter(lim, h).entries ==> EntryIsHistory(lim, h, id)
  {
    if h != [] {
      var past, x := h[..|h| - 1], h[|h| - 1];
      EntriesAreHistory(lim, past);
      forall id | id in TableAfter(lim, h).entries
        ensures EntryIsHistory(lim, h, id)
      {
        assert h == past + [x];
        OneMoreWrite(lim, past, x, id);
      }
    }
  }

  lemma LatestSnoc(lim: Limits, g: History, x: Octets, id: Byte, total: nat)
    ensures var f := Parse(x);
            LatestChunks(lim, g + [x], id, total) ==
            if Matches(lim, x, id, total) then LatestChunks(lim, g, id, total)[f.index := f.payload]
            else LatestChunks(lim, g, id, total)
    ensures var f := Parse(x);
            FirstArrivalBytes(lim, g + [x], id, total) == FirstArrivalBytes(lim, g, id, total) +
            if Matches(lim, x, id, total) && f.index !in LatestChunks(lim, g, id, total) then |f.payload| else 0
  {
    assert (g + [x])[..|g|] == g;
  }

  lemma OneMoreWrite(lim: Limits, past: History, x: Octets, id: Byte)
    requires lim.slots > 0 && id in TableAfter(lim, past + [x]).entries
    requires id in TableAfter(lim, past).entries ==> EntryIsHistory(lim, past, id)
    ensures EntryIsHistory(lim, past + [x], id)
  {
    hide Add, Parse, LatestChunks, FirstArrivalBytes;
    var h := past + [x];
    assert h[..|past|] == past;
    var t, f := TableAfter(lim, past), Parse(x);
    var e := TableAfter(lim, h).entries[id];
    if Accepted(lim, t, f) && f.msgId == id {
      OwnEntryGrows(lim, t, f);
    } else {
      OtherEntriesStay(lim, t, f, id);
    }
    if id in t.entries {
      var b := Birth(lim, past, id);
      assert h[b..] == past[b..] + [x];
      LatestSnoc(lim, past[b..], x, id, e.total);
    } else {
      assert h[|past|..] == [] + [x];
      LatestSnoc(lim, [], x, id, e.total);
      NothingYet(lim, id, e.total);
    }
  }

  lemma NothingYet(lim: Limits, id: Byte, total: nat)
    ensures LatestChunks(lim, [], id, total) == map[] && FirstArrivalBytes(lim, [], id, total) == 0
  {
  }

  /** The write that a message completed by the next write `x` began with. */
  function StartOf(lim: Limits, past: History, id: Byte): nat {
    if id in TableAfter(lim, past).entries then Birth(lim, past, id) else |past|
  }

  // A returned message consists of the last payload of each index 0 .. total-1, taken from writes
  // with its own message id (and, where totals are checked, its own total) since its entry was made;
  // the bytes of the first arrivals among them are within the cap.
  lemma MessageIsHistory(lim: Limits, past: History, x: Octets)
    requires lim.slots > 0 && Output(lim, past + [x]).Some?
    ensures var f := Parse(x);
            && f.Fragment?
            && (var b := StartOf(lim, past, f.msgId);
                var g := past[b..] + [x];
                var first := Parse(g[0]);
                && first.Fragment? && first.msgId == f.msgId
                && Output(lim, past + [x]) == PartsUpTo(LatestChunks(lim, g, f.msgId, first.total), first.total)
                && (lim.cap.Some? ==> FirstArrivalBytes(lim, g, f.msgId, first.total) <= lim.cap.value))
  {
    hide Add, Parse, LatestChunks, FirstArrivalBytes, PartsUpTo;
    assert (past + [x])[..|past|] == past;
    var t, f := TableAfter(lim, past), Parse(x);
    MessageIsGrownEntry(lim, t, f);
    var e := EntryFor(t, f);
    var b := StartOf(lim, past, f.msgId);
    var g := past[b..] + [x];
    EntriesAreHistory(lim, past);
    RunsKeepBounds(lim, past);
    if f.msgId in t.entries {
      assert EntryIsHistory(lim, past, f.msgId);
      assert g[0] == past[b];
    } else {
      NothingYet(lim, f.msgId, e.total);
      assert past[b..] == [];
    }
    LatestSnoc(lim, past[b..], x, f.msgId, e.total);
  }

  // ---------------------------------------------------------------- the byte cap

  function SumLengths(chunks: map<nat, Octets>, n: nat): nat {
    if n == 0 then 0 else SumLengths(chunks, n - 1) + if n - 1 in chunks then |chunks[n - 1]| else 0
  }

  lemma {:induction false} PartsLength(chunks: map<nat, Octets>, n: nat)
    ensures PartsUpTo(chunks, n).Some? ==> |PartsUpTo(chunks, n).value| == SumLengths(chunks, n)
  {
    if n > 0 {
      PartsLength(chunks, n - 1);
    }
  }

  lemma {:induction false} SumUpdated(chunks: map<nat, Octets>, n: nat, i: nat, p: Octets)
    ensures SumLengths(chunks[i := p], n) ==
            SumLengths(chunks, n) + if i >= n then 0 else |p| - if i in chunks then |chunks[i]| else 0
  {
    if n > 0 {
      SumUpdated(chunks, n - 1, i, p);
    }
  }

  /** What repeated indices added (or took away): each repeat counts the change in length it caused. */
  function GrowthBytes(lim: Limits, g: History, id: Byte, total: nat): int {
    if g == [] then 0
    else
      var past := g[..|g| - 1];
      var f := Parse(g[|g| - 1]);
      GrowthBytes(lim, past, id, total) +
      if Matches(lim, g[|g| - 1], id, total) && f.index in LatestChunks(lim, past, id, total)
      then |f.payload| - |LatestChunks(lim, past, id, total)[f.index]| else 0
  }

  lemma {:induction false} LatestSum(lim: Limits, g: History, id: Byte, total: nat)
    requires lim.checksTotal
    ensures SumLengths(LatestChunks(lim, g, id, total), total) ==
            FirstArrivalBytes(lim, g, id, total) + GrowthBytes(lim, g, id, total)
  {
    if g == [] {
      NoLengths(total);
    } else {
      var past, x := g[..|g| - 1], g[|g| - 1];
      LatestSum(lim, past, id, total);
      if Matches(lim, x, id, total) {
        SumUpdated(LatestChunks(lim, past, id, total), total, Parse(x).index, Parse(x).payload);
      }
    }
  }

  lemma {:induction false} NoLengths(n: nat)
    ensures SumLengths(map[], n) == 0
  {
    if n > 0 {
      NoLengths(n - 1);
    }
  }

  // The size of a returned request is what was counted plus what repeats added afterwards.
  lemma RequestSize(past: History, x: Octets)
    requires Output(WIFI, past + [x]).Some?
    ensures var id := Parse(x).msgId;
            var g := past[StartOf(WIFI, past, id)..] + [x];
            var total := if Parse(g[0]).Fragment? then Parse(g[0]).total else 0;
            var counted := FirstArrivalBytes(WIFI, g, id, total);
            var growth := GrowthBytes(WIFI, g, id, total);
            && Parse(x).Fragment? && Parse(g[0]).Fragment?
            && counted <= 4096
            && |Output(WIFI, past + [x]).value| == counted + growth
  {
    hide LatestChunks, FirstArrivalBytes, GrowthBytes, PartsUpTo, SumLengths, Output, Parse;
    MessageIsHistory(WIFI, past, x);
    var id := Parse(x).msgId;
    var g := past[StartOf(WIFI, past, id)..] + [x];
    var total := Parse(g[0]).total;
    PartsLength(LatestChunks(WIFI, g, id, total), total);
    LatestSum(WIFI, g, id, total);
  }

  /** No fragment of the message is longer than the one of the same index that it replaces. */
  ghost predicate NoRepeatGrows(lim: Limits, g: History, id: Byte, total: nat) {
    forall i {:trigger g[i]} :: 0 <= i < |g| && Matches(lim, g[i], id, total) ==>
      var latest, f := LatestChunks(lim, g[..i], id, total), Parse(g[i]);
      f.index in latest ==> |f.payload| <= |latest[f.index]|
  }

  lemma {:induction false} GrowthWithoutLongerRepeats(lim: Limits, g: History, id: Byte, total: nat)
    requires NoRepeatGrows(lim, g, id, total)
    ensures GrowthBytes(lim, g, id, total) <= 0
  {
    hide Parse, LatestChunks;
    if g != [] {
      var past, n := g[..|g| - 1], |g| - 1;
      forall i {:trigger past[i]} | 0 <= i < n && Matches(lim, past[i], id, total)
        ensures var latest, f := LatestChunks(lim, past[..i], id, total), Parse(past[i]);
                f.index in latest ==> |f.payload| <= |latest[f.index]|
      {
        assert past[..i] == g[..i] && past[i] == g[i];
      }
      GrowthWithoutLongerRepeats(lim, past, id, total);
      assert g[n] == g[|g| - 1];
    }
  }

  // The 4096-byte cap holds of a returned request exactly when the counted bytes and the growth together
  // are within it; if no repeat is longer than what it replaces, it always holds.
  lemma CapHoldsExactly(past: History, x: Octets)
    requires Output(WIFI, past + [x]).Some?
    ensures var id := Parse(x).msgId;
            var g := past[StartOf(WIFI, past, id)..] + [x];
            var total := if Parse(g[0]).Fragment? then Parse(g[0]).total else 0;
            var size := |Output(WIFI, past + [x]).value|;
            && (size <= 4096 <==> FirstArrivalBytes(WIFI, g, id, total) + GrowthBytes(WIFI, g, id, total) <= 4096)
            && (NoRepeatGrows(WIFI, g, id, total) ==> size <= 4096)
  {
    hide LatestChunks, FirstArrivalBytes, GrowthBytes, Output, Parse, NoRepeatGrows;
    RequestSize(past, x);
    var id := Parse(x).msgId;
    var g := past[StartOf(WIFI, past, id)..] + [x];
    if NoRepeatGrows(WIFI, g, id, Parse(g[0]).total) {
      GrowthWithoutLongerRepeats(WIFI, g, id, Parse(g[0]).total);
    }
  }

  // The cap does not bound the result: one byte, then 5000 bytes under the same index, then the rest.
  lemma CapCanBeExceeded() returns (past: History, x: Octets)
    ensures Output(WIFI, past + [x]).Some? && |Output(WIFI, past + [x]).value| == 5001
  {
    var big: Octets := seq(5000, i => 0);
    var a, b := FragmentWire(7, 0, 2, [1]), FragmentWire(7, 0, 2, big);
    x := FragmentWire(7, 1, 2, [2]);
    past := [a, b];
    ParseWire(7, 0, 2, [1]);
    ParseWire(7, 0, 2, big);
    ParseWire(7, 1, 2, [2]);
    NothingWritten(WIFI);
    hide Parse, FragmentWire, Add, TableAfter, Output;
    OneWrite(WIFI, [], a);
    OneWrite(WIFI, [a], b);
    OneWrite(WIFI, [a, b], x);
    assert [] + [a] == [a] && [a] + [b] == past;
    OpenEntry([1]);
    ReplaceChunk(TableAfter(WIFI, [a]), [1], big);
    FinishEntry(TableAfter(WIFI, past), big);
  }

  /** Message 7 with one counted byte and only the first of its two chunks. */
  ghost predicate HalfMessage(t: Table, chunk: Octets) {
    t.Valid() && 7 in t.entries && t.entries[7] == Entry(map[0 := chunk], 2, 1)
  }

  lemma OpenEntry(chunk: Octets)
    requires |chunk| == 1
    ensures HalfMessage(Add(WIFI, EMPTY, Fragment(7, 0, 2, chunk)).table, chunk)
  {
    hide Add;
    var chunks: map<nat, Octets> := map[][0 := chunk];
    assert chunks == map[0 := chunk] && |chunks| == 1;
    FittingFragment(WIFI, EMPTY, Fragment(7, 0, 2, chunk));
  }

  lemma ReplaceChunk(t: Table, was: Octets, chunk: Octets)
    requires HalfMessage(t, was)
    ensures HalfMessage(Add(WIFI, t, Fragment(7, 0, 2, chunk)).table, chunk)
  {
    hide Add;
    var chunks: map<nat, Octets> := map[0 := was][0 := chunk];
    assert chunks == map[0 := chunk] && |chunks| == 1;
    FittingFragment(WIFI, t, Fragment(7, 0, 2, chunk));
  }

  lemma FinishEntry(t: Table, chunk: Octets)
    requires HalfMessage(t, chunk)
    ensures Add(WIFI, t, Fragment(7, 1, 2, [2])).message == Some(chunk + [2])
  {
    hide Add;
    var chunks: map<nat, Octets> := map[0 := chunk][1 := [2]];
    assert |chunks| == 2;
    assert [] + chunk == chunk;
    assert PartsUpTo(chunks, 1) == Some(chunk);
    assert PartsUpTo(chunks, 2) == Some(chunk + [2]);
    FittingFragment(WIFI, t, Fragment(7, 1, 2, [2]));
  }

  // ---------------------------------------------------------------- the round trip

  /** A message under way: all its parts, and which of them have been delivered. */
  datatype Msg = Msg(parts: seq<Octets>, got: set<nat>)

  type Flight = map<Byte, Msg>

  /** Fragment `index` of the message `parts` sent under `msgId` arrives. */
  datatype Delivery = Delivery(msgId: Byte, parts: seq<Octets>, index: nat)

  /**
   * The link's discipline: messages the receiver has room for, a message id not reused while its
   * message is incomplete, and at most `slots` incomplete messages. Order is free, duplicates may
   * arrive as long as the message is incomplete.
   */
  predicate Allowed(lim: Limits, fl: Flight, d: Delivery) {
    && 0 < |d.parts| <= MAX_FRAGMENTS_PER_MESSAGE && d.index < |d.parts|
    && (lim.cap.Some? ==> |Concat(d.parts)| <= lim.cap.value)
    && (if d.msgId in fl then fl[d.msgId].parts == d.parts else |fl| < lim.slots)
  }

  function Got(fl: Flight, d: Delivery): set<nat> {
    (if d.msgId in fl then fl[d.msgId].got else {}) + {d.index}
  }

  predicate Completes(fl: Flight, d: Delivery) {
    forall i :: 0 <= i < |d.parts| ==> i in Got(fl, d)
  }

  function NextFlight(fl: Flight, d: Delivery): Flight {
    if Completes(fl, d) then fl - {d.msgId} else fl[d.msgId := Msg(d.parts, Got(fl, d))]
  }

  /** What the link brings next: a fragment, or bytes that are none of a message under way. */
  datatype Arrival = Part(d: Delivery) | Noise(bytes: Octets)

  /** Bytes that are no fragment at all or, where totals are checked, one with the wrong total. */
  predicate IsNoise(lim: Limits, fl: Flight, bytes: Octets) {
    var f := Parse(bytes);
    f.Malformed? || (lim.checksTotal && f.msgId in fl && |fl[f.msgId].parts| != f.total)
  }

  function FlightAfter(run: seq<Arrival>): Flight {
    if run == [] then map[]
    else
      var fl := FlightAfter(run[..|run| - 1]);
      match run[|run| - 1]
      case Part(d) => NextFlight(fl, d)
      case Noise(_) => fl
  }

  predicate AllowedNext(lim: Limits, fl: Flight, a: Arrival) {
    match a
    case Part(d) => Allowed(lim, fl, d)
    case Noise(bytes) => IsNoise(lim, fl, bytes)
  }

  predicate AllowedRun(lim: Limits, run: seq<Arrival>) {
    run != [] ==>
      AllowedRun(lim, run[..|run| - 1]) && AllowedNext(lim, FlightAfter(run[..|run| - 1]), run[|run| - 1])
  }

  function WireOf(d: Delivery): Octets
    requires d.index < |d.parts| <= MAX_FRAGMENTS_PER_MESSAGE
  {
    FragmentWire(d.msgId, d.index, |d.parts|, d.parts[d.index])
  }

  function Wires(lim: Limits, run: seq<Arrival>): History
    requires AllowedRun(lim, run)
  {
    if run == [] then []
    else
      Wires(lim, run[..|run| - 1]) +
      [match run[|run| - 1] case Part(d) => WireOf(d) case Noise(bytes) => bytes]
  }

  ghost predicate EntryIsMsg(lim: Limits, e: Entry, m: Msg) {
    && e.total == |m.parts| && e.chunks.Keys == m.got
    && (forall i :: i in m.got ==> i < |m.parts| && e.chunks[i] == m.parts[i])
    && (exists i :: 0 <= i < |m.parts| && i !in m.got)
    && (lim.cap.Some? ==> e.bytesSoFar == SumLengths(e.chunks, e.total))
  }

  ghost predicate TableIsFlight(lim: Limits, t: Table, fl: Flight) {
    && t.Valid() && t.entries.Keys == fl.Keys
    && forall id :: id in fl ==> EntryIsMsg(lim, t.entries[id], fl[id])
  }

  lemma {:induction false} SumAtMostAll(chunks: map<nat, Octets>, parts: seq<Octets>)
    requires forall i :: i in chunks && i < |parts| ==> chunks[i] == parts[i]
    ensures SumLengths(chunks, |parts|) <= |Concat(parts)|
  {
    if parts != [] {
      SumAtMostAll(chunks, parts[..|parts| - 1]);
    }
  }

  lemma {:induction false} AllPartsAreConcat(chunks: map<nat, Octets>, parts: seq<Octets>)
    requires forall i :: 0 <= i < |parts| ==> i in chunks && chunks[i] == parts[i]
    ensures PartsUpTo(chunks, |parts|) == Some(Concat(parts))
  {
    if parts != [] {
      AllPartsAreConcat(chunks, parts[..|parts| - 1]);
    }
  }

  lemma {:induction false} ManyIndices(n: nat) returns (all: set<nat>)
    ensures |all| == n && forall i :: i in all <==> 0 <= i < n
  {
    if n == 0 {
      all := {};
    } else {
      all := ManyIndices(n - 1);
      all := all + {n - 1};
    }
  }

  ghost predicate HoldsParts(lim: Limits, e: Entry, parts: seq<Octets>) {
    && e.total == |parts|
    && (forall i :: i in e.chunks ==> i < |parts| && e.chunks[i] == parts[i])
    && (lim.cap.Some? ==> e.bytesSoFar == SumLengths(e.chunks, e.total))
  }

  lemma EntryForIsMsg(lim: Limits, t: Table, fl: Flight, d: Delivery)
    requires TableIsFlight(lim, t, fl) && Allowed(lim, fl, d)
    ensures var e := EntryFor(t, Fragment(d.msgId, d.index, |d.parts|, d.parts[d.index]));
            HoldsParts(lim, e, d.parts) && e.chunks.Keys + {d.index} == Got(fl, d)
  {
    hide Concat, HoldsParts, EntryIsMsg, SumLengths;
    if d.msgId in fl {
      MsgHoldsParts(lim, t.entries[d.msgId], fl[d.msgId]);
    } else {
      FreshHoldsParts(lim, d.parts);
    }
  }

  lemma MsgHoldsParts(lim: Limits, e: Entry, m: Msg)
    requires EntryIsMsg(lim, e, m)
    ensures HoldsParts(lim, e, m.parts) && e.chunks.Keys == m.got
  {
  }

  lemma FreshHoldsParts(lim: Limits, parts: seq<Octets>)
    ensures HoldsParts(lim, Entry(map[], |parts|, 0), parts)
  {
    NoLengths(|parts|);
  }

  // The grown entry has room under the cap, and is full exactly when the delivery completes.
  lemma GrownIsMsg(lim: Limits, t: Table, fl: Flight, d: Delivery)
    requires TableIsFlight(lim, t, fl) && Allowed(lim, fl, d)
    ensures var e := GrownEntry(lim, t, Fragment(d.msgId, d.index, |d.parts|, d.parts[d.index]));
            && HoldsParts(lim, e, d.parts) && e.chunks.Keys == Got(fl, d)
            && (lim.cap.Some? ==> e.bytesSoFar <= lim.cap.value)
            && |e.chunks| <= e.total && (Completes(fl, d) <==> |e.chunks| == e.total)
  {
    hide TableIsFlight, Concat;
    var f := Fragment(d.msgId, d.index, |d.parts|, d.parts[d.index]);
    EntryForIsMsg(lim, t, fl, d);
    GrowthHoldsParts(lim, t, f, d.parts);
    FullCount(GrownEntry(lim, t, f).chunks.Keys, |d.parts|);
  }

  lemma GrowthHoldsParts(lim: Limits, t: Table, f: Parsed, parts: seq<Octets>)
    requires f.Fragment? && f.index < |parts| && f.payload == parts[f.index]
    requires HoldsParts(lim, EntryFor(t, f), parts)
    requires lim.cap.Some? ==> |Concat(parts)| <= lim.cap.value
    ensures var e := GrownEntry(lim, t, f);
            HoldsParts(lim, e, parts) && (lim.cap.Some? ==> e.bytesSoFar <= lim.cap.value)
  {
    hide SumLengths, Concat;
    SumUpdated(EntryFor(t, f).chunks, |parts|, f.index, f.payload);
    SumAtMostAll(GrownEntry(lim, t, f).chunks, parts);
  }

  lemma FullCount(keys: set<nat>, n: nat)
    requires forall i :: i in keys ==> i < n
    ensures |keys| <= n && (|keys| == n <==> forall i :: 0 <= i < n ==> i in keys)
  {
    AllIndices(keys, n);
    if forall i :: 0 <= i < n ==> i in keys {
      var all := ManyIndices(n);
      assert keys == all;
    }
  }

  function Returned(fl: Flight, d: Delivery): Option<Octets> {
    if Completes(fl, d) then Some(Concat(d.parts)) else None
  }

  lemma NoEviction(lim: Limits, t: Table, fl: Flight)
    requires TableIsFlight(lim, t, fl) && |fl| < lim.slots
    ensures t.MakeRoom(lim.slots) == t
  {
    SizeIsOrder(t);
    assert |t.entries| == |t.entries.Keys| && |fl| == |fl.Keys|;
  }

  // One delivery: the reassembler's table follows the messages in flight, and returns a message on
  // its last missing fragment and at no other time.
  lemma DeliveryIsFollowed(lim: Limits, t: Table, fl: Flight, d: Delivery)
    requires TableIsFlight(lim, t, fl) && Allowed(lim, fl, d)
    ensures var a := Add(lim, t, Parse(WireOf(d)));
            TableIsFlight(lim, a.table, NextFlight(fl, d)) && a.message == Returned(fl, d)
  {
    hide TableIsFlight, SumLengths, Concat, PartsUpTo, Add, GrownEntry;
    var f := Fragment(d.msgId, d.index, |d.parts|, d.parts[d.index]);
    ParseWire(d.msgId, d.index, |d.parts|, d.parts[d.index]);
    GrownIsMsg(lim, t, fl, d);
    var e := GrownEntry(lim, t, f);
    TableFacts(lim, t, fl, d);
    FittingFragment(lim, t, f);
    if Completes(fl, d) {
      AllPartsAreConcat(e.chunks, d.parts);
    }
    FlightStep(lim, t, fl, d, Add(lim, t, f).table, e);
  }

  lemma TableFacts(lim: Limits, t: Table, fl: Flight, d: Delivery)
    requires TableIsFlight(lim, t, fl) && Allowed(lim, fl, d)
    ensures var f := Fragment(d.msgId, d.index, |d.parts|, d.parts[d.index]);
            t.Valid() && Accepted(lim, t, f) && (f.msgId !in t.entries ==> t.MakeRoom(lim.slots) == t)
  {
    if d.msgId in fl {
      assert EntryIsMsg(lim, t.entries[d.msgId], fl[d.msgId]);
    } else {
      NoEviction(lim, t, fl);
    }
  }

  lemma FlightStep(lim: Limits, t: Table, fl: Flight, d: Delivery, after: Table, e: Entry)
    requires TableIsFlight(lim, t, fl) && after.Valid()
    requires HoldsParts(lim, e, d.parts) && e.chunks.Keys == Got(fl, d)
    requires OneEntryChanged(t.entries, after.entries, d.msgId, if Completes(fl, d) then None else Some(e))
    ensures TableIsFlight(lim, after, NextFlight(fl, d))
  {
    hide SumLengths;
    var next := NextFlight(fl, d);
    forall id | id in next
      ensures EntryIsMsg(lim, after.entries[id], next[id])
    {
      if id != d.msgId {
        assert EntryIsMsg(lim, t.entries[id], fl[id]);
      }
    }
  }

  // Noise disturbs no message under way, and returns nothing.
  lemma NoiseIsIgnored(lim: Limits, t: Table, fl: Flight, bytes: Octets)
    requires TableIsFlight(lim, t, fl) && IsNoise(lim, fl, bytes)
    ensures Add(lim, t, Parse(bytes)) == Added(t, None)
  {
    hide Add, Parse, SumLengths;
    var f := Parse(bytes);
    if f.Fragment? {
      assert EntryIsMsg(lim, t.entries[f.msgId], fl[f.msgId]);
    }
    RejectedChangesNothing(lim, t, f);
  }

  function ReturnedOn(fl: Flight, a: Arrival): Option<Octets> {
    match a
    case Part(d) => Returned(fl, d)
    case Noise(_) => None
  }

  // Over any allowed run, however long, however interleaved and whatever noise comes between, each
  // message comes out exactly once: on its last missing fragment, byte for byte. Nothing else is ever
  // returned.
  lemma {:induction false} RoundTrip(lim: Limits, run: seq<Arrival>)
    requires AllowedRun(lim, run)
    ensures TableIsFlight(lim, TableAfter(lim, Wires(lim, run)), FlightAfter(run))
    ensures run != [] ==>
              Output(lim, Wires(lim, run)) == ReturnedOn(FlightAfter(run[..|run| - 1]), run[|run| - 1])
  {
    if run != [] {
      hide TableIsFlight, NextFlight, Returned, Add, Parse, WireOf, Allowed;
      var past, a := run[..|run| - 1], run[|run| - 1];
      var h := Wires(lim, past);
      RoundTrip(lim, past);
      match a
      case Part(d) =>
        DeliveryIsFollowed(lim, TableAfter(lim, h), FlightAfter(past), d);
        OneWrite(lim, h, WireOf(d));
      case Noise(bytes) =>
        NoiseIsIgnored(lim, TableAfter(lim, h), FlightAfter(past), bytes);
        OneWrite(lim, h, bytes);
    } else {
      NothingWritten(lim);
    }
  }

  // What the sender cut is what the receiver returns.
  lemma SentBytesAreReturned(lim: Limits, run: seq<Arrival>, d: Delivery, bytes: Octets, mtu: nat)
    requires AllowedRun(lim, run + [Part(d)]) && mtu > FRAGMENT_HEADER_SIZE
    requires d.parts == Chunks(bytes, mtu - FRAGMENT_HEADER_SIZE)
    ensures Output(lim, Wires(lim, run + [Part(d)])) ==
            if Completes(FlightAfter(run), d) then Some(bytes) else None
  {
    hide Output, Wires, Chunks, Concat, Completes, FlightAfter, AllowedRun;
    assert (run + [Part(d)])[..|run|] == run;
    RoundTrip(lim, run + [Part(d)]);
    ConcatChunks(bytes, mtu - FRAGMENT_HEADER_SIZE);
  }

  // ---------------------------------------------------------------- one table per device

  const MAX_TRACKED_DEVICES := 8

  type Devices = FifoMap<string, Table>

  /** One write to the request characteristic: the writing device's path, and the bytes. */
  datatype Write = Write(device: string, bytes: Octets)

  ghost predicate TablesValid(ds: Devices) {
    ds.Valid() && forall k :: k in ds.entries ==> ds.entries[k].Valid()
  }

  function Tracked(ds: Devices, device: string): (after: Devices)
    requires TablesValid(ds)
    ensures TablesValid(after) && device in after.entries
  {
    if device in ds.entries then ds else ds.MakeRoom(MAX_TRACKED_DEVICES).Put(device, EMPTY)
  }

  class RequestCharacteristic {
    var devices: Devices

    constructor ()
      ensures devices == FifoMap(map[], [])
    {
      devices := FifoMap(map[], []);
    }

    /** Returns the request handed to `onRequestReady`, if this write completed one. */
    method WriteValue(w: Write) returns (ready: Option<Octets>)
      requires TablesValid(devices)
      modifies this
      ensures TablesValid(devices)
      ensures var tracked := Tracked(old(devices), w.device);
              var a := Add(WIFI, tracked.entries[w.device], Parse(w.bytes));
              devices == tracked.Put(w.device, a.table) && ready == a.message
    {
      hide Parse, Add;
      if w.device !in devices.entries {
        devices := devices.MakeRoom(MAX_TRACKED_DEVICES);
        devices := devices.Put(w.device, EMPTY);
      }
      var added := Add(WIFI, devices.entries[w.device], Parse(w.bytes));
      devices := devices.Put(w.device, added.table);
      ready := added.message;
    }
  }

  function DevicesAfter(ws: seq<Write>): (ds: Devices)
    ensures TablesValid(ds)
  {
    if ws == [] then FifoMap(map[], [])
    else
      var w := ws[|ws| - 1];
      var tracked := Tracked(DevicesAfter(ws[..|ws| - 1]), w.device);
      tracked.Put(w.device, Add(WIFI, tracked.entries[w.device], Parse(w.bytes)).table)
  }

  /** What one device wrote since it was last given a table (it may have lost an earlier one). */
  function OwnWrites(ws: seq<Write>, device: string): History {
    if ws == [] then []
    else
      var past, w := ws[..|ws| - 1], ws[|ws| - 1];
      if w.device == device then
        (if device in DevicesAfter(past).entries then OwnWrites(past, device) else []) + [w.bytes]
      else OwnWrites(past, device)
  }

  // No device's fragments ever reach another device's message: each table is the one a reassembler
  // of its own would have after that device's own writes.
  lemma {:induction false} DevicesAreIsolated(ws: seq<Write>)
    ensures |DevicesAfter(ws).order| <= MAX_TRACKED_DEVICES
    ensures forall device :: device in DevicesAfter(ws).entries ==>
              DevicesAfter(ws).entries[device] == TableAfter(WIFI, OwnWrites(ws, device))
  {
    hide Add, Parse, TableAfter;
    if ws != [] {
      var past, w := ws[..|ws| - 1], ws[|ws| - 1];
      DevicesAreIsolated(past);
      NothingWritten(WIFI);
      forall device | device in DevicesAfter(ws).entries
        ensures DevicesAfter(ws).entries[device] == TableAfter(WIFI, OwnWrites(ws, device))
      {
        if device == w.device {
          OneWrite(WIFI, if device in DevicesAfter(past).entries then OwnWrites(past, device) else [], w.bytes);
        }
      }
    }
  }

  // A device loses its table exactly if it has had one for the longest time and a ninth device writes;
  // all others keep theirs, in the order in which they were given them.
  lemma DeviceLeavesExactly(ws: seq<Write>, w: Write, device: string)
    requires device in DevicesAfter(ws).entries
    ensures var ds, after := DevicesAfter(ws), DevicesAfter(ws + [w]);
            && (device !in after.entries <==>
                  w.device !in ds.entries && |ds.order| >= 8 && device == ds.order[0])
            && (device in after.entries && device != w.device ==> after.entries[device] == ds.entries[device])
            && after.order ==
               Restricted(ds.order + if w.device in ds.entries then [] else [w.device], after.entries.Keys)
  {
    hide Add, Parse, Restricted, Without, TableAfter;
    assert (ws + [w])[..|ws|] == ws;
    var ds, after := DevicesAfter(ws), DevicesAfter(ws + [w]);
    if w.device in ds.entries {
      AllRestricted(ds.order, after.entries.Keys);
      assert ds.order + [] == ds.order;
    } else {
      var room := ds.MakeRoom(MAX_TRACKED_DEVICES);
      RestrictedAppend(ds.order, [w.device], after.entries.Keys);
      AllRestricted([w.device], after.entries.Keys);
      if room == ds {
        AllRestricted(ds.order, after.entries.Keys);
      } else {
        WithoutIsRestricted(ds.order, ds.order[0], after.entries.Keys);
      }
    }
  }
}
