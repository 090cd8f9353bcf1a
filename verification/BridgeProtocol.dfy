/**
 * The byte-at-a-time frame reader of the SX126x serial bridge, with its one-level resync.
 *
 * `Phase` and `Step` are the plain five-state automaton; `Push` adds the rescan of a failed record;
 * `Run` is a whole input history. `BridgeFrameReader` is the firmware's reader over its mutable
 * fields and buffers, proved to follow `Run`.
 */
module BridgeProtocol {
  import opened Bits
  import opened Wrappers
  import opened Bytes

  const FRAME_SOF: Byte := 0xAA
  const FRAME_OVERHEAD_BYTES := 4
  const MAX_FRAME_PAYLOAD_BYTES := 0xFF

  // ---------------------------------------------------------------- frames on the wire

  datatype Frame = Frame(typ: Byte, payload: seq<Byte>)

  type WireFrame = f: Frame | |f.payload| <= MAX_FRAME_PAYLOAD_BYTES witness Frame(0, [])

  function Xor(a: Byte, b: Byte): Byte {
    XorBelow(a, b, 8);
    XorBits(a, b)
  }

  function XorAll(c: Byte, bytes: seq<Byte>): Byte {
    if bytes == [] then c else Xor(XorAll(c, bytes[..|bytes| - 1]), bytes[|bytes| - 1])
  }

  function Checksum(typ: Byte, payload: seq<Byte>): Byte
    requires |payload| <= MAX_FRAME_PAYLOAD_BYTES
  {
    XorAll(Xor(typ, |payload|), payload)
  }

  function Encode(f: WireFrame): (wire: seq<Byte>)
    ensures |wire| == FRAME_OVERHEAD_BYTES + |f.payload|
  {
    [FRAME_SOF, f.typ, |f.payload|] + f.payload + [Checksum(f.typ, f.payload)]
  }

  lemma {:induction false} XorAllAppend(c: Byte, a: seq<Byte>, b: seq<Byte>)
    ensures XorAll(c, a + b) == XorAll(XorAll(c, a), b)
  {
    if b == [] {
      assert a + b == a;
    } else {
      var n := |b| - 1;
      XorAllAppend(c, a, b[..n]);
      assert (a + b)[..|a + b| - 1] == a + b[..n];
    }
  }

  // What is on the wire: a marker, the type, the length, the payload, and last the exclusive or of all
  // that lies between the marker and it, the length byte included.
  lemma WireLayout(f: WireFrame)
    ensures var w := Encode(f);
            var last := |w| - 1;
            && w[0] == 0xAA && w[1] == f.typ && w[2] == |f.payload| && w[3..last] == f.payload
            && w[last] == XorAll(w[1], w[2..last])
  {
    hide Xor;
    var w := Encode(f);
    var last := |w| - 1;
    var len: seq<Byte> := [w[2]];
    assert w[2..last] == len + f.payload;
    XorAllAppend(f.typ, len, f.payload);
    XorOne(f.typ, w[2]);
  }

  /** How many of the bytes have this binary digit set. */
  function Ones(bytes: seq<Byte>, k: nat): nat {
    if bytes == [] then 0 else Ones(bytes[..|bytes| - 1], k) + Digit(bytes[|bytes| - 1], k)
  }

  // Each digit of an exclusive or over bytes is the parity of their digits.
  lemma {:induction false} XorIsParity(c: Byte, bytes: seq<Byte>, k: nat)
    ensures Digit(XorAll(c, bytes), k) == (Digit(c, k) + Ones(bytes, k)) % 2
  {
    hide Digit, XorBits;
    DigitIsBit(c, k);
    if bytes != [] {
      var n := |bytes| - 1;
      XorIsParity(c, bytes[..n], k);
      DigitsOf(XorAll(c, bytes[..n]), bytes[n], k);
      DigitIsBit(bytes[n], k);
    }
  }

  lemma {:induction false} DigitIsBit(a: nat, k: nat)
    ensures Digit(a, k) <= 1
    decreases k
  {
    if k > 0 {
      DigitIsBit(a / 2, k - 1);
    }
  }

  lemma XorOne(c: Byte, b: Byte)
    ensures XorAll(c, [b]) == Xor(c, b)
  {
    assert [b][..0] == [];
  }

  // Whichever single byte between marker and checksum is damaged, the checksum is no longer that of
  // the bytes before it.
  lemma ChecksumCoversTheWire(f: WireFrame, i: nat, wrong: Byte)
    requires 0 < i < |Encode(f)| - 1 && wrong != Encode(f)[i]
    ensures var w := Encode(f)[i := wrong];
            var last := |w| - 1;
            w[last] != XorAll(w[1], w[2..last])
  {
    hide Encode, Xor;
    var w := Encode(f);
    var last := |w| - 1;
    var damaged := w[i := wrong];
    WireLayout(f);
    if i == 1 {
      assert damaged[2..last] == w[2..last];
      SeedMatters(w[1], wrong, w[2..last]);
    } else {
      assert damaged[2..last] == w[2..last][i - 2 := wrong];
      ChecksumDetectsOneByte(w[1], w[2..last], i - 2, wrong);
    }
  }

  lemma {:induction false} SeedMatters(c: Byte, d: Byte, bytes: seq<Byte>)
    requires c != d
    ensures XorAll(c, bytes) != XorAll(d, bytes)
  {
    if bytes != [] {
      var n := |bytes| - 1;
      SeedMatters(c, d, bytes[..n]);
      XorCancels(XorAll(c, bytes[..n]), XorAll(d, bytes[..n]), bytes[n]);
    }
  }

  // A frame damaged in exactly one payload byte never passes for a valid one.
  lemma {:induction false} ChecksumDetectsOneByte(c: Byte, bytes: seq<Byte>, i: nat, wrong: Byte)
    requires i < |bytes| && wrong != bytes[i]
    ensures XorAll(c, bytes[i := wrong]) != XorAll(c, bytes)
  {
    var n := |bytes| - 1;
    var damaged := bytes[i := wrong];
    if i == n {
      assert damaged[..n] == bytes[..n];
      XorCancels(wrong, bytes[n], XorAll(c, bytes[..n]));
    } else {
      assert damaged[..n] == bytes[..n][i := wrong];
      ChecksumDetectsOneByte(c, bytes[..n], i, wrong);
      XorCancels(XorAll(c, damaged[..n]), XorAll(c, bytes[..n]), bytes[n]);
    }
  }

  // ---------------------------------------------------------------- the plain automaton

  /** Where the reader stands in a record, with exactly the bytes of it that still matter. */
  datatype Phase =
    | WaitSof
    | WaitType
    | WaitLen(typ: Byte)
    | WaitPayload(typ: Byte, len: Byte, got: seq<Byte>)
    | WaitChecksum(typ: Byte, got: seq<Byte>)
  {
    predicate Valid() {
      && (WaitPayload? ==> |got| < len)
      && (WaitChecksum? ==> |got| <= MAX_FRAME_PAYLOAD_BYTES)
    }

    /** The input bytes the record in progress has taken, its opening SOF included. */
    function Consumed(): seq<Byte>
      requires Valid()
    {
      match this
      case WaitSof => []
      case WaitType => [FRAME_SOF]
      case WaitLen(t) => [FRAME_SOF, t]
      case WaitPayload(t, l, g) => [FRAME_SOF, t, l] + g
      case WaitChecksum(t, g) => [FRAME_SOF, t, |g|] + g
    }
  }

  type State = p: Phase | p.Valid() witness WaitSof

  datatype Verdict = NeedMore | FrameComplete(frame: WireFrame) | ChecksumMismatch

  datatype Result = Result(state: State, verdict: Verdict)

  function Step(p: State, b: Byte): Result {
    match p
    case WaitSof => Result(if b == FRAME_SOF then WaitType else WaitSof, NeedMore)
    case WaitType => Result(WaitLen(b), NeedMore)
    case WaitLen(t) => Result(if b == 0 then WaitChecksum(t, []) else WaitPayload(t, b, []), NeedMore)
    case WaitPayload(t, l, g) =>
      Result(if |g| + 1 >= l then WaitChecksum(t, g + [b]) else WaitPayload(t, l, g + [b]), NeedMore)
    case WaitChecksum(t, g) =>
      Result(WaitSof, if b == Checksum(t, g) then FrameComplete(Frame(t, g)) else ChecksumMismatch)
  }

  /** The plain automaton over `bytes`, stopped at its first completion or mismatch. */
  function Scan(p: State, bytes: seq<Byte>): Result
    decreases |bytes|
  {
    if bytes == [] then Result(p, NeedMore)
    else
      var r := Step(p, bytes[0]);
      if r.verdict.NeedMore? then Scan(r.state, bytes[1..]) else r
  }

  /** Every byte of a failed record after its opening SOF, the wrong checksum byte included. */
  function FailedRecord(p: State, b: Byte): seq<Byte>
    requires p.WaitChecksum?
  {
    [p.typ, |p.got|] + p.got + [b]
  }

  /**
   * The part of a record of up to 258 bytes that an 8-bit `recordCount` still addresses: all of it
   * up to 255 bytes, and only what was written after the wrap beyond that.
   */
  function Rescanned(record: seq<Byte>): seq<Byte> {
    if |record| < 256 then record else record[256..]
  }

  datatype Pushed = Pushed(state: State, frame: Option<WireFrame>)

  function Delivered(r: Result): Pushed {
    Pushed(r.state, if r.verdict.FrameComplete? then Some(r.verdict.frame) else None)
  }

  function Push(p: State, b: Byte): Pushed {
    var r := Step(p, b);
    if r.verdict.ChecksumMismatch? then Delivered(Scan(WaitSof, Rescanned(FailedRecord(p, b))))
    else Delivered(r)
  }

  // ---------------------------------------------------------------- whole histories

  /** A frame handed to the caller on the push that made the input `at` bytes long. */
  datatype Report = Report(at: nat, frame: WireFrame)

  datatype Outcome = Outcome(state: State, reports: seq<Report>)

  function Run(s: seq<Byte>): Outcome {
    if s == [] then Outcome(WaitSof, [])
    else
      var before := Run(s[..|s| - 1]);
      var pushed := Push(before.state, s[|s| - 1]);
      Outcome(pushed.state,
              before.reports + if pushed.frame.Some? then [Report(|s|, pushed.frame.value)] else [])
  }

  lemma RunSnoc(s: seq<Byte>, b: Byte)
    ensures Run(s + [b]).state == Push(Run(s).state, b).state
    ensures Run(s + [b]).reports == Run(s).reports +
              var f := Push(Run(s).state, b).frame; if f.Some? then [Report(|s| + 1, f.value)] else []
  {
    assert (s + [b])[..|s|] == s;
  }

  lemma RunStart()
    ensures Run([]) == Outcome(WaitSof, [])
  {
  }

  lemma RunQuiet(s: seq<Byte>, b: Byte)
    requires Step(Run(s).state, b).verdict.NeedMore?
    ensures Run(s + [b]) == Outcome(Step(Run(s).state, b).state, Run(s).reports)
  {
    RunSnoc(s, b);
  }

  // ---------------------------------------------------------------- soundness

  predicate SliceAt(s: seq<Byte>, start: nat, f: WireFrame) {
    start + |Encode(f)| <= |s| && s[start..start + |Encode(f)|] == Encode(f)
  }

  /** `starts[k]` locates report `k` as an encoded frame of `s`; the slices are disjoint and in order. */
  ghost predicate Located(s: seq<Byte>, reports: seq<Report>, starts: seq<nat>) {
    && |starts| == |reports|
    && (forall k :: 0 <= k < |starts| ==>
          SliceAt(s, starts[k], reports[k].frame) && starts[k] + |Encode(reports[k].frame)| <= reports[k].at <= |s|)
    && (forall j, k :: 0 <= j < k < |starts| ==> starts[j] + |Encode(reports[j].frame)| <= starts[k])
  }

  function EndOfLast(reports: seq<Report>, starts: seq<nat>): nat
    requires |starts| == |reports|
  {
    if reports == [] then 0 else starts[|starts| - 1] + |Encode(reports[|reports| - 1].frame)|
  }

  predicate IsSuffix(x: seq<Byte>, s: seq<Byte>) {
    |x| <= |s| && s[|s| - |x|..] == x
  }

  lemma EmptySuffix(s: seq<Byte>)
    ensures IsSuffix([], s)
  {
  }

  lemma SuffixOfSuffix(x: seq<Byte>, part: seq<Byte>, whole: seq<Byte>)
    requires IsSuffix(x, part) && IsSuffix(part, whole)
    ensures IsSuffix(x, whole)
  {
    assert whole[|whole| - |x|..] == whole[|whole| - |part|..][|part| - |x|..];
  }

  lemma SuffixExtended(x: seq<Byte>, s: seq<Byte>, more: seq<Byte>)
    requires IsSuffix(x, s)
    ensures IsSuffix(x + more, s + more)
  {
    assert (s + more)[|s| - |x|..] == s[|s| - |x|..] + more;
  }

  lemma StepConsumes(p: State, b: Byte)
    ensures var r := Step(p, b);
            match r.verdict
            case NeedMore => IsSuffix(r.state.Consumed(), p.Consumed() + [b])
            case FrameComplete(f) => Encode(f) == p.Consumed() + [b] && r.state == WaitSof
            case ChecksumMismatch => p.WaitChecksum? && r.state == WaitSof
  {
    var r := Step(p, b);
    if r.verdict.NeedMore? && r.state != WaitSof {
      assert r.state.Consumed() == p.Consumed() + [b];
    }
  }

  // What a scan reports or still holds is a contiguous piece of what it was given, placed here
  // inside a longer input `whole` that ends with it.
  lemma {:induction false} ScanConsumes(p: State, bytes: seq<Byte>, whole: seq<Byte>) returns (start: nat)
    requires IsSuffix(p.Consumed() + bytes, whole)
    ensures var r := Scan(p, bytes);
            match r.verdict
            case NeedMore => IsSuffix(r.state.Consumed(), whole)
            case FrameComplete(f) => r.state == WaitSof && SliceAt(whole, start, f) &&
                                     |whole| - |p.Consumed() + bytes| <= start
            case ChecksumMismatch => r.state == WaitSof
    decreases |bytes|
  {
    hide Step, Encode, SliceAt, IsSuffix;
    start := 0;
    var all := p.Consumed() + bytes;
    if bytes == [] {
      assert all == p.Consumed();
    } else {
      StepConsumes(p, bytes[0]);
      var r := Step(p, bytes[0]);
      var here := p.Consumed() + [bytes[0]];
      assert all == here + bytes[1..];
      if r.verdict.NeedMore? {
        SuffixExtended(r.state.Consumed(), here, bytes[1..]);
        SuffixOfSuffix(r.state.Consumed() + bytes[1..], all, whole);
        SuffixLength(r.state.Consumed(), here);
        start := ScanConsumes(r.state, bytes[1..], whole);
      } else if r.verdict.FrameComplete? {
        SuffixLength(all, whole);
        start := |whole| - |all|;
        SliceStarts(r.verdict.frame, bytes[1..], whole);
      }
    }
  }

  lemma SuffixLength(x: seq<Byte>, s: seq<Byte>)
    requires IsSuffix(x, s)
    ensures |x| <= |s|
  {
  }

  lemma SliceStarts(f: WireFrame, rest: seq<Byte>, whole: seq<Byte>)
    requires IsSuffix(Encode(f) + rest, whole)
    ensures SliceAt(whole, |whole| - |Encode(f) + rest|, f)
  {
    hide Encode;
    var start := |whole| - |Encode(f) + rest|;
    assert whole[start..start + |Encode(f)|] == whole[start..][..|Encode(f)|];
  }

  // One push: the state left behind is a suffix of the input, a reported frame a slice of it, and
  // neither reaches back before the SOF of the record that was in progress.
  lemma PushConsumes(p: State, b: Byte, whole: seq<Byte>) returns (start: nat)
    requires IsSuffix(p.Consumed() + [b], whole)
    ensures var r := Push(p, b);
            && IsSuffix(r.state.Consumed(), whole)
            && |r.state.Consumed()| <= |p.Consumed()| + 1
            && (r.frame.Some? ==>
                  r.state == WaitSof && SliceAt(whole, start, r.frame.value) &&
                  |whole| - |p.Consumed()| - 1 <= start)
  {
    StepConsumes(p, b);
    start := 0;
    var all := p.Consumed() + [b];
    var r := Step(p, b);
    if r.verdict.NeedMore? {
      SuffixOfSuffix(r.state.Consumed(), all, whole);
    } else if r.verdict.FrameComplete? {
      start := |whole| - |all|;
    } else {
      start := ResyncConsumes(p, b, whole);
    }
  }

  lemma ResyncConsumes(p: State, b: Byte, whole: seq<Byte>) returns (start: nat)
    requires p.WaitChecksum? && IsSuffix(p.Consumed() + [b], whole)
    ensures var r := Delivered(Scan(WaitSof, Rescanned(FailedRecord(p, b))));
            && IsSuffix(r.state.Consumed(), whole)
            && |r.state.Consumed()| <= |p.Consumed()| + 1
            && (r.frame.Some? ==>
                  r.state == WaitSof && SliceAt(whole, start, r.frame.value) &&
                  |whole| - |p.Consumed()| - 1 <= start)
  {
    hide Scan, Checksum, IsSuffix, SliceAt, Rescanned, FailedRecord;
    var all := p.Consumed() + [b];
    var part := Rescanned(FailedRecord(p, b));
    RescannedIsSuffix(p, b);
    SuffixOfSuffix(part, all, whole);
    EmptySuffix(whole);
    assert WaitSof.Consumed() + part == part;
    start := ScanConsumes(WaitSof, part, whole);
    ScanIsShort(WaitSof, part);
  }

  lemma RescannedIsSuffix(p: State, b: Byte)
    requires p.WaitChecksum?
    ensures var part := Rescanned(FailedRecord(p, b));
            |part| <= |p.Consumed()| && IsSuffix(part, p.Consumed() + [b])
  {
    assert p.Consumed() + [b] == [FRAME_SOF] + FailedRecord(p, b);
  }

  lemma {:induction false} ScanIsShort(p: State, bytes: seq<Byte>)
    ensures |Scan(p, bytes).state.Consumed()| <= |p.Consumed()| + |bytes|
    decreases |bytes|
  {
    if bytes != [] {
      StepConsumes(p, bytes[0]);
      ScanIsShort(Step(p, bytes[0]).state, bytes[1..]);
    }
  }

  // Every report is an encoded frame found in the input, no input byte belongs to two of them, and
  // what the reader still holds is the input's unreported end.
  ghost predicate Accounted(s: seq<Byte>, starts: seq<nat>) {
    && Located(s, Run(s).reports, starts)
    && IsSuffix(Run(s).state.Consumed(), s)
    && EndOfLast(Run(s).reports, starts) + |Run(s).state.Consumed()| <= |s|
  }

  // For every input whatever, each reported frame is a slice of it that decodes with a correct
  // checksum, and no input byte belongs to two reports. This holds for every length byte, the ones
  // whose rescan is cut short by the 8-bit counter included.
  lemma {:induction false} EveryReportIsASlice(s: seq<Byte>) returns (starts: seq<nat>)
    ensures Accounted(s, starts)
  {
    hide Accounted;
    if s == [] {
      starts := [];
      NothingReported();
    } else {
      var past, b := s[..|s| - 1], s[|s| - 1];
      starts := EveryReportIsASlice(past);
      starts := OneMoreByte(past, b, starts);
      assert past + [b] == s;
    }
  }

  lemma NothingReported()
    ensures Accounted([], [])
  {
    RunStart();
  }

  lemma OneMoreByte(past: seq<Byte>, b: Byte, before: seq<nat>) returns (starts: seq<nat>)
    requires Accounted(past, before)
    ensures Accounted(past + [b], starts)
  {
    hide Run, Push, Encode, Located, SliceAt, EndOfLast, IsSuffix;
    var p, reports := Run(past).state, Run(past).reports;
    RunSnoc(past, b);
    SuffixExtended(p.Consumed(), past, [b]);
    var start := PushConsumes(p, b, past + [b]);
    starts := LocatedSnoc(past, b, reports, before, Push(p, b).frame, start);
  }

  lemma LocatedSnoc(past: seq<Byte>, b: Byte, reports: seq<Report>, starts: seq<nat>, f: Option<WireFrame>, start: nat)
    returns (all: seq<nat>)
    requires Located(past, reports, starts)
    requires f.Some? ==> SliceAt(past + [b], start, f.value) && EndOfLast(reports, starts) <= start
    ensures var now := reports + if f.Some? then [Report(|past| + 1, f.value)] else [];
            && Located(past + [b], now, all)
            && EndOfLast(now, all) == if f.Some? then start + |Encode(f.value)| else EndOfLast(reports, starts)
  {
    hide Located, SliceAt, Encode, EndOfLast;
    SlicesStay(past, b, reports, starts);
    all := starts;
    if f.Some? {
      SliceFits(past + [b], start, f.value);
      LocatedAppend(past + [b], reports, starts, Report(|past| + 1, f.value), start);
      all := starts + [start];
    } else {
      assert reports + [] == reports;
    }
  }

  lemma SlicesStay(past: seq<Byte>, b: Byte, reports: seq<Report>, starts: seq<nat>)
    requires Located(past, reports, starts)
    ensures Located(past + [b], reports, starts)
  {
    hide Encode;
    forall k | 0 <= k < |starts|
      ensures SliceAt(past + [b], starts[k], reports[k].frame)
    {
      var e := starts[k] + |Encode(reports[k].frame)|;
      assert (past + [b])[starts[k]..e] == past[starts[k]..e];
    }
  }

  lemma SliceFits(s: seq<Byte>, start: nat, f: WireFrame)
    requires SliceAt(s, start, f)
    ensures start + |Encode(f)| <= |s|
  {
  }

  lemma LocatedAppend(s: seq<Byte>, reports: seq<Report>, starts: seq<nat>, r: Report, start: nat)
    requires Located(s, reports, starts) && SliceAt(s, start, r.frame)
    requires EndOfLast(reports, starts) <= start && start + |Encode(r.frame)| <= r.at <= |s|
    ensures Located(s, reports + [r], starts + [start])
    ensures EndOfLast(reports + [r], starts + [start]) == start + |Encode(r.frame)|
  {
    hide SliceAt, Encode;
    LastIsFurthest(s, reports, starts);
  }

  lemma LastIsFurthest(s: seq<Byte>, reports: seq<Report>, starts: seq<nat>)
    requires Located(s, reports, starts)
    ensures forall k :: 0 <= k < |starts| ==> starts[k] + |Encode(reports[k].frame)| <= EndOfLast(reports, starts)
  {
    hide SliceAt, Encode;
    var last := |starts| - 1;
    forall k | 0 <= k < |starts|
      ensures starts[k] + |Encode(reports[k].frame)| <= EndOfLast(reports, starts)
    {
      if k < last {
        assert starts[k] + |Encode(reports[k].frame)| <= starts[last];
      }
    }
  }

  // ---------------------------------------------------------------- completeness

  /** The state after the first `k` bytes of an encoded frame, for a reader that was idle before it. */
  function PhaseAfter(f: WireFrame, k: nat): State
    requires k < |Encode(f)|
  {
    if k == 0 then WaitSof
    else if k == 1 then WaitType
    else if k == 2 then WaitLen(f.typ)
    else if k < 3 + |f.payload| then WaitPayload(f.typ, |f.payload|, f.payload[..k - 3])
    else WaitChecksum(f.typ, f.payload)
  }

  lemma PhaseStep(f: WireFrame, k: nat)
    requires k < |Encode(f)|
    ensures Step(PhaseAfter(f, k), Encode(f)[k]) ==
            if k + 1 < |Encode(f)| then Result(PhaseAfter(f, k + 1), NeedMore) else Result(WaitSof, FrameComplete(f))
  {
    if 3 <= k < 3 + |f.payload| {
      assert f.payload[..k - 3] + [f.payload[k - 3]] == f.payload[..k - 2];
      assert f.payload[..|f.payload|] == f.payload;
    }
  }

  // A reader that has taken the first k bytes of a frame delivers it on its last byte.
  lemma {:induction false} FrameFinishes(s: seq<Byte>, f: WireFrame, k: nat)
    requires k < |Encode(f)| && Run(s).state == PhaseAfter(f, k)
    ensures Run(s + Encode(f)[k..]) ==
            Outcome(WaitSof, Run(s).reports + [Report(|s| + |Encode(f)| - k, f)])
    decreases |Encode(f)| - k
  {
    hide Run, Encode;
    var wire := Encode(f);
    PhaseStep(f, k);
    RunSnoc(s, wire[k]);
    if k + 1 < |wire| {
      FrameFinishes(s + [wire[k]], f, k + 1);
      assert s + wire[k..] == s + [wire[k]] + wire[k + 1..];
    } else {
      assert s + wire[k..] == s + [wire[k]];
    }
  }

  lemma {:induction false} NoiseIsIgnored(s: seq<Byte>, noise: seq<Byte>)
    requires Run(s).state == WaitSof && FRAME_SOF !in noise
    ensures Run(s + noise) == Run(s)
    decreases |noise|
  {
    hide Run, Checksum;
    if noise == [] {
      assert s + noise == s;
    } else {
      RunQuiet(s, noise[0]);
      NoiseIsIgnored(s + [noise[0]], noise[1..]);
      assert s + noise == s + [noise[0]] + noise[1..];
    }
  }

  /** A frame preceded by line noise that holds no SOF byte. */
  datatype Item = Item(noise: seq<Byte>, frame: WireFrame)

  function Stream(items: seq<Item>): seq<Byte> {
    if items == [] then []
    else Stream(items[..|items| - 1]) + items[|items| - 1].noise + Encode(items[|items| - 1].frame)
  }

  function Expected(items: seq<Item>): seq<Report> {
    if items == [] then []
    else Expected(items[..|items| - 1]) + [Report(|Stream(items)|, items[|items| - 1].frame)]
  }

  // Encoded frames separated by noise come out exactly: each one once, in order, on its last byte.
  lemma {:induction false} EveryFrameIsReported(items: seq<Item>, tail: seq<Byte>)
    requires FRAME_SOF !in tail && forall i :: i in items ==> FRAME_SOF !in i.noise
    ensures Run(Stream(items) + tail) == Outcome(WaitSof, Expected(items))
  {
    hide Run, Encode;
    RunStart();
    if items != [] {
      var init, last := items[..|items| - 1], items[|items| - 1];
      assert last in items;
      EveryFrameIsReported(init, last.noise);
      var s := Stream(init) + last.noise;
      FrameFinishes(s, last.frame, 0);
      assert Encode(last.frame)[0..] == Encode(last.frame);
      assert Stream(items) == s + Encode(last.frame);
    } else {
      assert Stream(items) == [];
    }
    NoiseIsIgnored(Stream(items), tail);
  }

  // ---------------------------------------------------------------- the rescan

  // Up to 252 payload bytes, a mismatch leaves the reader exactly where the plain automaton would be
  // if it were started idle on the failed record and stopped at its first completion or mismatch.
  // For 253, 254 and 255 the 8-bit counter wraps and some record defeats the rescan.
  lemma FullRescanExactlyUpTo252(len: Byte)
    ensures (forall typ, got, b | |got| == len && b != Checksum(typ, got) ::
               Push(WaitChecksum(typ, got), b) ==
               Delivered(Scan(WaitSof, FailedRecord(WaitChecksum(typ, got), b))))
            <==> len <= 252
  {
    if len > 252 {
      var got, b := LostCommand(len);
      assert Push(WaitChecksum(FRAME_SOF, got), b) !=
             Delivered(Scan(WaitSof, FailedRecord(WaitChecksum(FRAME_SOF, got), b)));
    }
  }

  // A concrete record for each wrapping length: it holds the empty frame [AA, len, 00, len] right at
  // its start, which a full rescan would deliver and the firmware drops.
  lemma LostCommand(len: Byte) returns (got: seq<Byte>, b: Byte)
    requires len > 252
    ensures |got| == len && b != Checksum(FRAME_SOF, got)
    ensures Push(WaitChecksum(FRAME_SOF, got), b) == Pushed(WaitSof, None)
    ensures Delivered(Scan(WaitSof, FailedRecord(WaitChecksum(FRAME_SOF, got), b))) ==
            Pushed(WaitSof, Some(Frame(len, [])))
  {
    hide Checksum, Scan, Encode;
    var zeros := seq(len - 2, i => 0);
    got := [0, len] + zeros;
    b := if Checksum(FRAME_SOF, got) == 0 then 1 else 0;
    var p := WaitChecksum(FRAME_SOF, got);
    var record := FailedRecord(p, b);
    assert FRAME_SOF !in Rescanned(record);
    QuietScan(Rescanned(record));
    assert record == [FRAME_SOF, len, 0, len] + (zeros + [b]);
    EmptyFrameScan(len, zeros + [b]);
  }

  lemma EmptyFrameScan(typ: Byte, rest: seq<Byte>)
    ensures Scan(WaitSof, [FRAME_SOF, typ, 0, typ] + rest) == Result(WaitSof, FrameComplete(Frame(typ, [])))
  {
    assert Checksum(typ, []) == typ by {
      XorZero(typ);
    }
    assert Scan(WaitChecksum(typ, []), [typ] + rest).verdict == FrameComplete(Frame(typ, []));
    assert ([0, typ] + rest)[1..] == [typ] + rest;
    assert Scan(WaitLen(typ), [0, typ] + rest) == Scan(WaitChecksum(typ, []), [typ] + rest);
    assert ([typ, 0, typ] + rest)[1..] == [0, typ] + rest;
    assert Scan(WaitType, [typ, 0, typ] + rest) == Scan(WaitLen(typ), [0, typ] + rest);
    assert ([FRAME_SOF, typ, 0, typ] + rest)[1..] == [typ, 0, typ] + rest;
  }

  lemma {:induction false} QuietScan(bytes: seq<Byte>)
    requires FRAME_SOF !in bytes
    ensures Scan(WaitSof, bytes) == Result(WaitSof, NeedMore)
  {
    if bytes != [] {
      QuietScan(bytes[1..]);
    }
  }

  lemma {:induction false} QuietPrefix(quiet: seq<Byte>, rest: seq<Byte>)
    requires FRAME_SOF !in quiet
    ensures Scan(WaitSof, quiet + rest) == Scan(WaitSof, rest)
  {
    if quiet == [] {
      assert quiet + rest == rest;
    } else {
      assert (quiet + rest)[1..] == quiet[1..] + rest;
      QuietPrefix(quiet[1..], rest);
    }
  }

  // The plain automaton on a prefix of an encoded frame.
  lemma {:induction false} ScanOfFramePrefix(f: WireFrame, k: nat, n: nat)
    requires k <= n <= |Encode(f)| && k < |Encode(f)|
    ensures Scan(PhaseAfter(f, k), Encode(f)[k..n]) ==
            if n < |Encode(f)| then Result(PhaseAfter(f, n), NeedMore) else Result(WaitSof, FrameComplete(f))
    decreases n - k
  {
    if k < n {
      PhaseStep(f, k);
      assert Encode(f)[k..n][1..] == Encode(f)[k + 1..n];
      if k + 1 < |Encode(f)| {
        ScanOfFramePrefix(f, k + 1, n);
      }
    }
  }

  // The case the resync exists for. A frame header with a corrupted length swallows the start of the
  // next command; the checksum then fails inside that command or on its last byte. The command is
  // still delivered, on its own last byte.
  lemma SwallowedCommandIsDelivered(s: seq<Byte>, typ: Byte, len: Byte, junk: seq<Byte>, cmd: WireFrame)
    requires Run(s).state == WaitSof
    requires typ != FRAME_SOF && len != FRAME_SOF && FRAME_SOF !in junk
    requires 0 < len <= 252
    requires |junk| <= len < |junk + Encode(cmd)|
    requires (junk + Encode(cmd))[len] != Checksum(typ, (junk + Encode(cmd))[..len])
    ensures var head := s + [FRAME_SOF, typ, len];
            Run(head + junk + Encode(cmd)) ==
            Outcome(WaitSof, Run(s).reports + [Report(|head| + |junk| + |Encode(cmd)|, cmd)])
  {
    hide Run, Encode, Checksum;
    HeaderTaken(s, typ, len);
    CommandAfterHeader(s + [FRAME_SOF, typ, len], typ, len, junk, cmd);
  }

  lemma CommandAfterHeader(head: seq<Byte>, typ: Byte, len: Byte, junk: seq<Byte>, cmd: WireFrame)
    requires Run(head).state == WaitPayload(typ, len, [])
    requires typ != FRAME_SOF && len != FRAME_SOF && FRAME_SOF !in junk && 0 < len <= 252
    requires |junk| <= len < |junk + Encode(cmd)|
    requires (junk + Encode(cmd))[len] != Checksum(typ, (junk + Encode(cmd))[..len])
    ensures Run(head + junk + Encode(cmd)) ==
            Outcome(WaitSof, Run(head).reports + [Report(|head| + |junk| + |Encode(cmd)|, cmd)])
  {
    hide Run, Encode, Checksum;
    var n := len + 1 - |junk|;
    RunUpToMismatch(head, typ, len, junk, cmd);
    CutAndJoin(head, junk, Encode(cmd), n);
    if n < |Encode(cmd)| {
      FrameFinishes(head + (junk + Encode(cmd)[..n]), cmd, n);
    }
  }

  lemma CutAndJoin(head: seq<Byte>, junk: seq<Byte>, wire: seq<Byte>, n: nat)
    requires n <= |wire|
    ensures head + (junk + wire[..n]) + wire[n..] == head + junk + wire
    ensures n == |wire| ==> head + (junk + wire[..n]) == head + junk + wire
  {
    assert wire[..n] + wire[n..] == wire;
  }

  lemma HeaderTaken(s: seq<Byte>, typ: Byte, len: Byte)
    requires Run(s).state == WaitSof && len != 0
    ensures Run(s + [FRAME_SOF, typ, len]) == Outcome(WaitPayload(typ, len, []), Run(s).reports)
  {
    hide Run;
    RunQuiet(s, FRAME_SOF);
    RunQuiet(s + [FRAME_SOF], typ);
    RunQuiet(s + [FRAME_SOF] + [typ], len);
    assert s + [FRAME_SOF] + [typ] + [len] == s + [FRAME_SOF, typ, len];
  }

  lemma RunUpToMismatch(head: seq<Byte>, typ: Byte, len: Byte, junk: seq<Byte>, cmd: WireFrame)
    requires Run(head).state == WaitPayload(typ, len, [])
    requires typ != FRAME_SOF && len != FRAME_SOF && FRAME_SOF !in junk && 0 < len <= 252
    requires |junk| <= len < |junk + Encode(cmd)|
    requires (junk + Encode(cmd))[len] != Checksum(typ, (junk + Encode(cmd))[..len])
    ensures var n := len + 1 - |junk|;
            Run(head + (junk + Encode(cmd)[..n])) ==
            if n < |Encode(cmd)| then Outcome(PhaseAfter(cmd, n), Run(head).reports)
            else Outcome(WaitSof, Run(head).reports + [Report(|head| + |junk| + n, cmd)])
  {
    hide Run, Encode, Push, Checksum, PhaseAfter;
    var wire := junk + Encode(cmd);
    var taken := head + wire[..len];
    PayloadFills(head, typ, len, wire[..len]);
    ResyncOnCommand(typ, len, junk, cmd);
    RunSnoc(taken, wire[len]);
    assert taken + [wire[len]] == head + (junk + Encode(cmd)[..len + 1 - |junk|]) by {
      LastOfPrefix(junk, Encode(cmd), len);
    }
  }

  lemma LastOfPrefix(junk: seq<Byte>, wire: seq<Byte>, len: nat)
    requires |junk| <= len < |junk + wire|
    ensures (junk + wire)[..len] + [(junk + wire)[len]] == junk + wire[..len + 1 - |junk|]
  {
  }

  // The failing push itself: the rescan leaves the reader inside the command, or delivers it.
  lemma ResyncOnCommand(typ: Byte, len: Byte, junk: seq<Byte>, cmd: WireFrame)
    requires typ != FRAME_SOF && len != FRAME_SOF && FRAME_SOF !in junk && len <= 252
    requires |junk| <= len < |junk + Encode(cmd)|
    requires (junk + Encode(cmd))[len] != Checksum(typ, (junk + Encode(cmd))[..len])
    ensures var wire := junk + Encode(cmd);
            var n := len + 1 - |junk|;
            Push(WaitChecksum(typ, wire[..len]), wire[len]) ==
            if n < |Encode(cmd)| then Pushed(PhaseAfter(cmd, n), None) else Pushed(WaitSof, Some(cmd))
  {
    hide Encode;
    var wire := junk + Encode(cmd);
    var n := len + 1 - |junk|;
    var record := FailedRecord(WaitChecksum(typ, wire[..len]), wire[len]);
    var quiet := [typ, len] + junk;
    assert record == quiet + Encode(cmd)[0..n];
    QuietPrefix(quiet, Encode(cmd)[0..n]);
    ScanOfFramePrefix(cmd, 0, n);
  }

  lemma {:induction false} PayloadFills(head: seq<Byte>, typ: Byte, len: Byte, bytes: seq<Byte>)
    requires 0 < |bytes| <= len && Run(head).state == WaitPayload(typ, len, [])
    ensures Run(head + bytes) ==
            Outcome(if |bytes| == len then WaitChecksum(typ, bytes) else WaitPayload(typ, len, bytes),
                    Run(head).reports)
  {
    hide Run;
    var n := |bytes| - 1;
    if n == 0 {
      assert bytes == [] + [bytes[0]];
      RunQuiet(head, bytes[0]);
    } else {
      PayloadFills(head, typ, len, bytes[..n]);
      RunQuiet(head + bytes[..n], bytes[n]);
      assert head + bytes == head + bytes[..n] + [bytes[n]];
      assert bytes[..n] + [bytes[n]] == bytes;
    }
  }

  // ---------------------------------------------------------------- the firmware's reader

  /** `encodeBridgeFrame`: writes one frame at the start of the caller's buffer. */
  method EncodeBridgeFrame(typ: Byte, payload: array<Byte>, payloadLen: Byte, out: array<Byte>) returns (n: nat)
    requires payload.Length >= payloadLen && out.Length >= FRAME_OVERHEAD_BYTES + payloadLen && out != payload
    modifies out
    ensures n == FRAME_OVERHEAD_BYTES + payloadLen
    ensures out[..n] == Encode(Frame(typ, payload[..payloadLen]))
    ensures out[n..] == old(out[n..])
  {
    out[0] := FRAME_SOF;
    out[1] := typ;
    out[2] := payloadLen;
    for i := 0 to payloadLen
      invariant out[0] == FRAME_SOF && out[1] == typ && out[2] == payloadLen
      invariant out[3..3 + i] == payload[..i]
      invariant forall j :: 3 + i <= j < out.Length ==> out[j] == old(out[j])
    {
      out[3 + i] := payload[i];
    }
    var c := ComputeBridgeChecksum(typ, payload, payloadLen);
    out[3 + payloadLen] := c;
    n := FRAME_OVERHEAD_BYTES + payloadLen;
  }

  /** `computeBridgeChecksum`. */
  method ComputeBridgeChecksum(typ: Byte, payload: array<Byte>, len: Byte) returns (c: Byte)
    requires payload.Length >= len
    ensures c == Checksum(typ, payload[..len])
  {
    c := Xor(typ, len);
    for i := 0 to len
      invariant c == XorAll(Xor(typ, len), payload[..i])
    {
      assert payload[..i + 1][..i] == payload[..i];
      c := Xor(c, payload[i]);
    }
  }

  lemma ScanAt(p: State, bytes: seq<Byte>, i: nat)
    requires i < |bytes|
    ensures var r := Step(p, bytes[i]);
            Scan(p, bytes[i..]) == if r.verdict.NeedMore? then Scan(r.state, bytes[i + 1..]) else r
  {
    hide Step;
    assert bytes[i..][1..] == bytes[i + 1..];
  }

  lemma ScanEnd(p: State)
    ensures Scan(p, []) == Result(p, NeedMore)
  {
  }

  lemma SofStep(b: Byte)
    ensures Step(WaitSof, b) == Result(if b == FRAME_SOF then WaitType else WaitSof, NeedMore)
  {
  }

  /** The buffer after the first `n` bytes of a record were written through an 8-bit index. */
  ghost predicate Recorded(record: seq<Byte>, full: seq<Byte>, n: nat) {
    && |record| == 258 && n <= |full| <= 258
    && forall x :: 0 <= x < 256 && x < n ==> record[x] == full[if x + 256 < n then x + 256 else x]
  }

  lemma NothingRecorded(record: seq<Byte>, full: seq<Byte>)
    requires |record| == 258 && |full| <= 258
    ensures Recorded(record, full, 0)
  {
  }

  lemma RecordedLength(record: seq<Byte>, full: seq<Byte>, n: nat)
    requires Recorded(record, full, n)
    ensures |record| == 258
  {
  }

  lemma RecordOne(record: seq<Byte>, full: seq<Byte>, n: nat, b: Byte)
    requires Recorded(record, full, n) && n < |full| && full[n] == b
    ensures Recorded(record[n % 256 := b], full, n + 1)
  {
  }

  // Such a buffer holds the last bytes of a long record at its front.
  lemma WrappedRecord(record: seq<Byte>, full: seq<Byte>)
    requires |full| >= 3 && Recorded(record, full, |full|)
    ensures record[..|full| % 256] == Rescanned(full)
  {
  }

  /** The caller-owned output structure. */
  class BridgeFrame {
    var typ: Byte
    var payload: array<Byte>
    var payloadLength: Byte

    constructor ()
      ensures fresh(payload) && payload.Length == MAX_FRAME_PAYLOAD_BYTES
    {
      typ, payloadLength := 0, 0;
      payload := new Byte[MAX_FRAME_PAYLOAD_BYTES];
    }

    ghost predicate Valid()
      reads this
    {
      payload.Length == MAX_FRAME_PAYLOAD_BYTES
    }

    ghost function Value(): WireFrame
      requires Valid()
      reads this, payload
    {
      Frame(typ, payload[..payloadLength])
    }
  }

  datatype ReaderState = WAIT_SOF | WAIT_TYPE | WAIT_LEN | WAIT_PAYLOAD | WAIT_CHECKSUM

  datatype TransitionResult = NEED_MORE | FRAME_COMPLETE | CHECKSUM_MISMATCH

  class BridgeFrameReader {
    var state: ReaderState
    var typ: Byte
    var len: Byte
    var payload: array<Byte>
    var payloadIndex: Byte
    ghost var input: seq<Byte>  // every byte pushed so far

    ghost predicate WellFormed()
      reads this
    {
      && payload.Length == MAX_FRAME_PAYLOAD_BYTES
      && (state == WAIT_PAYLOAD ==> payloadIndex < len)
    }

    /** The reader's fields as a state of the plain automaton. */
    ghost function Abs(): State
      requires WellFormed()
      reads this, payload
    {
      match state
      case WAIT_SOF => WaitSof
      case WAIT_TYPE => WaitType
      case WAIT_LEN => WaitLen(typ)
      case WAIT_PAYLOAD => WaitPayload(typ, len, payload[..payloadIndex])
      case WAIT_CHECKSUM => WaitChecksum(typ, payload[..len])
    }

    ghost predicate Valid()
      reads this, payload
    {
      WellFormed() && Abs() == Run(input).state
    }

    constructor ()
      ensures Valid() && input == [] && fresh(payload)
    {
      state, typ, len, payloadIndex := WAIT_SOF, 0, 0, 0;
      payload := new Byte[MAX_FRAME_PAYLOAD_BYTES];
      input := [];
    }

    /** One automaton step; never rescans. Leaves `out` alone unless a frame completes. */
    method Transition(b: Byte, out: BridgeFrame) returns (r: TransitionResult)
      requires WellFormed() && out.Valid() && out.payload != payload
      modifies this`state, this`typ, this`len, this`payloadIndex, payload, out`typ, out`payloadLength, out.payload
      ensures WellFormed() && out.Valid()
      ensures Abs() == Step(old(Abs()), b).state
      ensures match Step(old(Abs()), b).verdict
              case NeedMore => r == NEED_MORE && out.Value() == old(out.Value())
              case FrameComplete(f) => r == FRAME_COMPLETE && out.Value() == f
              case ChecksumMismatch => r == CHECKSUM_MISMATCH && out.Value() == old(out.Value())
    {
      hide Checksum;
      match state {
        case WAIT_SOF =>
          if b == FRAME_SOF { state := WAIT_TYPE; }
          r := NEED_MORE;
        case WAIT_TYPE =>
          typ := b;
          state := WAIT_LEN;
          r := NEED_MORE;
        case WAIT_LEN =>
          len := b;
          payloadIndex := 0;
          state := if len == 0 then WAIT_CHECKSUM else WAIT_PAYLOAD;
          r := NEED_MORE;
        case WAIT_PAYLOAD =>
          ghost var got := payload[..payloadIndex];
          payload[payloadIndex] := b;
          payloadIndex := payloadIndex + 1;
          assert payload[..payloadIndex] == got + [b];
          if payloadIndex >= len { state := WAIT_CHECKSUM; }
          r := NEED_MORE;
        case WAIT_CHECKSUM =>
          var expected := ComputeBridgeChecksum(typ, payload, len);
          state := WAIT_SOF;
          if b == expected {
            out.typ := typ;
            out.payloadLength := len;
            for i := 0 to len
              modifies out.payload
              invariant out.payload[..i] == payload[..i]
            {
              out.payload[i] := payload[i];
            }
            r := FRAME_COMPLETE;
          } else {
            r := CHECKSUM_MISMATCH;
          }
      }
    }

    /** Feeds one byte; true exactly when the history now ends with a new report, copied to `out`. */
    method PushByte(b: Byte, out: BridgeFrame) returns (done: bool)
      requires Valid() && out.Valid() && out.payload != payload
      modifies this`state, this`typ, this`len, this`payloadIndex, this`input, payload
      modifies out`typ, out`payloadLength, out.payload
      ensures Valid() && out.Valid() && input == old(input) + [b]
      ensures Run(input).reports ==
              Run(old(input)).reports + if done then [Report(|input|, out.Value())] else []
      ensures !done ==> out.Value() == old(out.Value())
    {
      hide Run, Checksum;
      ghost var before := Abs();
      RunSnoc(input, b);
      input := input + [b];

      var wasWaitingForChecksum := state == WAIT_CHECKSUM;
      var recordType := typ;
      var recordLen := len;
      var recordPayload := CopyPayload(recordLen);
      assert wasWaitingForChecksum ==> before == WaitChecksum(recordType, recordPayload[..recordLen]);

      var result := Transition(b, out);
      if result == FRAME_COMPLETE { return true; }
      if result != CHECKSUM_MISMATCH || !wasWaitingForChecksum { return false; }

      var record, recordCount := WriteRecord(recordType, recordLen, recordPayload, b);
      done := Rescan(record, recordCount, out);
    }

    method CopyPayload(n: Byte) returns (copy: array<Byte>)
      requires WellFormed()
      ensures fresh(copy) && copy.Length == MAX_FRAME_PAYLOAD_BYTES && copy[..n] == payload[..n]
    {
      copy := new Byte[MAX_FRAME_PAYLOAD_BYTES];
      for i := 0 to n
        invariant copy[..i] == payload[..i]
      {
        copy[i] := payload[i];
      }
    }

    /** The snapshot of the failed record, counted by an 8-bit index that wraps after 255. */
    method WriteRecord(recordType: Byte, recordLen: Byte, recordPayload: array<Byte>, b: Byte)
      returns (record: array<Byte>, recordCount: Byte)
      requires recordPayload.Length == MAX_FRAME_PAYLOAD_BYTES
      ensures fresh(record) && record.Length == 2 + MAX_FRAME_PAYLOAD_BYTES + 1
      ensures record[..recordCount] == Rescanned(FailedRecord(WaitChecksum(recordType, recordPayload[..recordLen]), b))
    {
      hide Checksum, Rescanned, Recorded;
      ghost var full := FailedRecord(WaitChecksum(recordType, recordPayload[..recordLen]), b);
      record := new Byte[2 + MAX_FRAME_PAYLOAD_BYTES + 1];
      NothingRecorded(record[..], full);
      recordCount := WriteByte(record, 0, recordType, full, 0);
      recordCount := WriteByte(record, recordCount, recordLen, full, 1);
      for i := 0 to recordLen
        invariant recordCount == (2 + i) % 256 && Recorded(record[..], full, 2 + i)
      {
        recordCount := WriteByte(record, recordCount, recordPayload[i], full, 2 + i);
      }
      recordCount := WriteByte(record, recordCount, b, full, 2 + recordLen);
      WrappedRecord(record[..], full);
    }

    /** `record[recordCount++] = b`, of which `n` bytes of `full` were written before. */
    method WriteByte(record: array<Byte>, recordCount: Byte, b: Byte, ghost full: seq<Byte>, ghost n: nat)
      returns (next: Byte)
      requires Recorded(record[..], full, n) && n < |full| && full[n] == b && recordCount == n % 256
      modifies record
      ensures Recorded(record[..], full, n + 1) && next == (n + 1) % 256
    {
      hide Recorded;
      assert record.Length == |record[..]| == 258 by { RecordedLength(record[..], full, n); }
      RecordOne(record[..], full, n, b);
      ghost var before := record[..];
      record[recordCount] := b;
      assert record[..] == before[n % 256 := b];
      next := (recordCount + 1) % 256;
    }

    /** Resumes at the first SOF among the addressed record bytes, one level deep. */
    method Rescan(record: array<Byte>, recordCount: Byte, out: BridgeFrame) returns (done: bool)
      requires WellFormed() && state == WAIT_SOF && out.Valid() && out.payload != payload
      requires recordCount <= record.Length && record != payload && record != out.payload
      modifies this`state, this`typ, this`len, this`payloadIndex, payload, out`typ, out`payloadLength, out.payload
      ensures WellFormed() && out.Valid()
      ensures var r := Delivered(Scan(WaitSof, old(record[..recordCount])));
              Abs() == r.state && done == r.frame.Some? &&
              out.Value() == if done then r.frame.value else old(out.Value())
    {
      hide Scan, Step, Checksum, Encode;
      ghost var rec := record[..recordCount];
      for i := 0 to recordCount
        invariant record[..recordCount] == rec && WellFormed() && state == WAIT_SOF && out.Valid()
        invariant out.Value() == old(out.Value())
        invariant Scan(WaitSof, rec) == Scan(WaitSof, rec[i..])
      {
        ScanAt(WaitSof, rec, i);
        SofStep(rec[i]);
        if record[i] != FRAME_SOF { continue; }
        state := WAIT_TYPE;
        for j := i + 1 to recordCount
          invariant record[..recordCount] == rec && WellFormed() && out.Valid()
          invariant out.Value() == old(out.Value())
          invariant Scan(WaitSof, rec) == Scan(Abs(), rec[j..])
        {
          ScanAt(Abs(), rec, j);
          var replayResult := Transition(record[j], out);
          if replayResult == FRAME_COMPLETE { return true; }
          if replayResult == CHECKSUM_MISMATCH { return false; }
        }
        assert rec[recordCount..] == [];
        ScanEnd(Abs());
        return false;
      }
      assert rec[recordCount..] == [];
      ScanEnd(WaitSof);
      return false;
    }
  }
}
