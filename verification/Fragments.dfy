/**
 * Fragmentation and reassembly over Bluetooth LE, in both of the repository's variants: the Wi-Fi
 * provisioning one (4 slots, byte cap, total check) and the phone link (8 slots, neither).
 */
module Fragments {
  import opened Arithmetic
  import opened Wrappers
  import opened Bytes
  import opened FifoMaps

  const FRAGMENT_HEADER_SIZE := 5
  const MAX_FRAGMENTS_PER_MESSAGE := 8192

  type Octets = seq<Byte>

  /** What distinguishes the two reassemblers. */
  datatype Limits = Limits(slots: nat, cap: Option<nat>, checksTotal: bool)

  const WIFI := Limits(4, Some(4096), true)
  const LINK := Limits(8, None, false)

  // ---------------------------------------------------------------- fragments

  datatype Parsed = Malformed | Fragment(msgId: Byte, index: nat, total: nat, payload: Octets)

  function Parse(bytes: Octets): Parsed {
    if |bytes| < FRAGMENT_HEADER_SIZE then Malformed
    else
      var index := (bytes[1] as int) * 256 + bytes[2];
      var total := (bytes[3] as int) * 256 + bytes[4];
      if total <= 0 || total > MAX_FRAGMENTS_PER_MESSAGE || index >= total then Malformed
      else Fragment(bytes[0], index, total, bytes[FRAGMENT_HEADER_SIZE..])
  }

  function FragmentWire(msgId: Byte, index: nat, total: nat, chunk: Octets): (wire: Octets)
    requires index < total <= MAX_FRAGMENTS_PER_MESSAGE
    ensures |wire| == FRAGMENT_HEADER_SIZE + |chunk|
  {
    [msgId, index / 256 % 256, index % 256, total / 256 % 256, total % 256] + chunk
  }

  lemma ParseWire(msgId: Byte, index: nat, total: nat, chunk: Octets)
    requires index < total <= MAX_FRAGMENTS_PER_MESSAGE
    ensures Parse(FragmentWire(msgId, index, total, chunk)) == Fragment(msgId, index, total, chunk)
  {
    assert FragmentWire(msgId, index, total, chunk)[FRAGMENT_HEADER_SIZE..] == chunk;
  }

  // Exactly the wires of a valid index and total are fragments; everything else is malformed.
  lemma ParseExactly(bytes: Octets, f: Parsed)
    requires f.Fragment?
    ensures Parse(bytes) == f <==>
            f.index < f.total <= MAX_FRAGMENTS_PER_MESSAGE &&
            bytes == FragmentWire(f.msgId, f.index, f.total, f.payload)
  {
    if Parse(bytes) == f {
      assert bytes == bytes[..FRAGMENT_HEADER_SIZE] + bytes[FRAGMENT_HEADER_SIZE..];
      TwoBytes(bytes[1], bytes[2]);
      TwoBytes(bytes[3], bytes[4]);
    }
    if f.index < f.total <= MAX_FRAGMENTS_PER_MESSAGE {
      ParseWire(f.msgId, f.index, f.total, f.payload);
    }
  }

  lemma TwoBytes(high: Byte, low: Byte)
    ensures ((high as int) * 256 + low) / 256 % 256 == high && ((high as int) * 256 + low) % 256 == low
  {
  }

  // The header's layout: the message id, then index and total, each with its high byte first.
  lemma WireLayout(msgId: Byte, index: nat, total: nat, chunk: Octets)
    requires index < total <= MAX_FRAGMENTS_PER_MESSAGE
    ensures var w := FragmentWire(msgId, index, total, chunk);
            && w[0] == msgId && (w[1] as int) * 256 + w[2] == index && (w[3] as int) * 256 + w[4] == total
            && w[5..] == chunk
  {
  }

  function Concat(parts: seq<Octets>): Octets {
    if parts == [] then [] else Concat(parts[..|parts| - 1]) + parts[|parts| - 1]
  }

  // ---------------------------------------------------------------- the sender

  /** `bytes` cut into pieces of `size`; one empty piece for nothing. */
  function Chunks(bytes: Octets, size: nat): (parts: seq<Octets>)
    requires size > 0
    ensures |parts| > 0
  {
    if |bytes| <= size then [bytes] else [bytes[..size]] + Chunks(bytes[size..], size)
  }

  lemma {:induction false} ConcatCons(first: Octets, rest: seq<Octets>)
    ensures Concat([first] + rest) == first + Concat(rest)
  {
    var all := [first] + rest;
    if rest == [] {
      assert Concat(all[..0]) == [];
    } else {
      assert all[..|all| - 1] == [first] + rest[..|rest| - 1];
      ConcatCons(first, rest[..|rest| - 1]);
    }
  }

  lemma {:induction false} ConcatChunks(bytes: Octets, size: nat)
    requires size > 0
    ensures Concat(Chunks(bytes, size)) == bytes
    ensures forall i :: 0 <= i < |Chunks(bytes, size)| ==> |Chunks(bytes, size)[i]| <= size
    decreases |bytes|
  {
    if |bytes| <= size {
      assert [bytes] == [bytes] + [];
      ConcatCons(bytes, []);
    } else {
      ConcatChunks(bytes[size..], size);
      ConcatCons(bytes[..size], Chunks(bytes[size..], size));
    }
  }

  lemma {:induction false} ChunkCount(bytes: Octets, size: nat)
    requires size > 0
    ensures |Chunks(bytes, size)| == if bytes == [] then 1 else CeilDiv(|bytes|, size)
    decreases |bytes|
  {
    if |bytes| > size {
      ChunkCount(bytes[size..], size);
    }
  }

  /** `bytes.slice(index * size, (index + 1) * size)`. */
  function Slice(bytes: Octets, index: nat, size: nat): Octets {
    Clipped(bytes, index * size, (index + 1) * size)
  }

  function Clipped(bytes: Octets, start: nat, end: int): Octets
    requires start <= end
  {
    if start >= |bytes| then [] else bytes[start..if end <= |bytes| then end else |bytes|]
  }

  lemma {:induction false} ChunkIsSlice(bytes: Octets, size: nat, i: nat)
    requires size > 0 && i < |Chunks(bytes, size)|
    ensures Chunks(bytes, size)[i] == Slice(bytes, i, size)
    decreases |bytes|
  {
    if i == 0 {
      assert 0 * size == 0 && (0 + 1) * size == size;
      FirstClip(bytes, size);
    } else {
      ChunkIsSlice(bytes[size..], size, i - 1);
      SliceOfRest(bytes, size, i);
    }
  }

  lemma FirstClip(bytes: Octets, size: nat)
    requires size > 0
    ensures Clipped(bytes, 0, size) == Chunks(bytes, size)[0]
  {
  }

  lemma SliceOfRest(bytes: Octets, size: nat, i: nat)
    requires 0 < i && size <= |bytes|
    ensures Slice(bytes[size..], i - 1, size) == Slice(bytes, i, size)
  {
    hide Clipped;
    var start := (i - 1) * size;
    assert i * size == start + size && (i + 1) * size == start + 2 * size && (i - 1 + 1) * size == start + size;
    ClippedRest(bytes, size, start, start + size);
  }

  lemma ClippedRest(bytes: Octets, size: nat, start: nat, end: nat)
    requires size <= |bytes| && start <= end
    ensures Clipped(bytes[size..], start, end) == Clipped(bytes, start + size, end + size)
  {
  }

  datatype Fragmented = Rejected | Sent(fragments: seq<Octets>)

  /** The rolling one-byte message counter and the fragmenting loop. */
  class Fragmenter {
    var nextMsgId: Byte

    constructor ()
      ensures nextMsgId == 0
    {
      nextMsgId := 0;
    }

    method FragmentBytes(bytes: Octets, mtu: int) returns (r: Fragmented)
      modifies this
      ensures r.Rejected? <==>
              mtu <= FRAGMENT_HEADER_SIZE ||
              |Chunks(bytes, mtu - FRAGMENT_HEADER_SIZE)| > MAX_FRAGMENTS_PER_MESSAGE
      ensures r.Rejected? ==> nextMsgId == old(nextMsgId)
      ensures r.Sent? ==>
                var parts := Chunks(bytes, mtu - FRAGMENT_HEADER_SIZE);
                && nextMsgId == (old(nextMsgId) + 1) % 256
                && |r.fragments| == |parts|
                && (forall i :: 0 <= i < |parts| ==>
                      r.fragments[i] == FragmentWire(old(nextMsgId), i, |parts|, parts[i]) && |r.fragments[i]| <= mtu)
    {
      if mtu <= FRAGMENT_HEADER_SIZE { return Rejected; }
      var payloadSize := mtu - FRAGMENT_HEADER_SIZE;
      ChunkCount(bytes, payloadSize);
      var ceil := CeilDiv(|bytes|, payloadSize);
      var total := if ceil > 1 then ceil else 1;
      if total > MAX_FRAGMENTS_PER_MESSAGE { return Rejected; }
      var msgId := nextMsgId;
      nextMsgId := (nextMsgId + 1) % 256;
      var fragments := WireFragments(msgId, bytes, payloadSize, total);
      return Sent(fragments);
    }
  }

  method WireFragments(msgId: Byte, bytes: Octets, payloadSize: nat, total: nat) returns (fragments: seq<Octets>)
    requires payloadSize > 0 && |Chunks(bytes, payloadSize)| == total <= MAX_FRAGMENTS_PER_MESSAGE
    ensures |fragments| == total
    ensures forall i :: 0 <= i < total ==>
              fragments[i] == FragmentWire(msgId, i, total, Chunks(bytes, payloadSize)[i]) &&
              |fragments[i]| <= payloadSize + FRAGMENT_HEADER_SIZE
  {
    hide FragmentWire, Chunks;
    fragments := [];
    for index := 0 to total
      invariant |fragments| == index
      invariant forall i :: 0 <= i < index ==>
                  fragments[i] == FragmentWire(msgId, i, total, Chunks(bytes, payloadSize)[i]) &&
                  |fragments[i]| <= payloadSize + FRAGMENT_HEADER_SIZE
    {
      var chunk := Slice(bytes, index, payloadSize);
      ChunkIsSlice(bytes, payloadSize, index);
      ConcatChunks(bytes, payloadSize);
      fragments := fragments + [FragmentWire(msgId, index, total, chunk)];
    }
  }
}
