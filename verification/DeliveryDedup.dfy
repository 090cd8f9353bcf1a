/**
 * The reservation that keeps a retried delivery from being sent twice: the e-mail, webhook and
 * WhatsApp relays share it.
 *
 * A request reserves its key before it awaits the send and takes the reservation back if the send
 * fails. Requests interleave at that await only.
 */
module DeliveryDedup {
  import opened BoundedMaps
  import opened FifoMaps
  import opened Wrappers

  type SealedKey = string

  datatype Answer = Deduped | BadPayload | Sending

  datatype State = State(
    reserved: FifoMap<SealedKey, nat>,  // recentlyDelivered: every key, and which request reserved it
    sending: map<nat, SealedKey>,       // requests whose send is being awaited
    arrived: nat,
    delivered: seq<SealedKey>,
    evicted: set<SealedKey>)            // keys the bounded map has thrown out, or never held

  const INITIAL := State(FifoMap(map[], []), map[], 0, [], {})

  datatype Event =
    | Arrives(key: SealedKey, readable: bool)  // readable: it decrypts to a non-empty message
    | SendEnds(request: nat, ok: bool)

  function FirstIn(k: SealedKey): int { 0 }

  function ThrownOut(s: State, max: nat, k: SealedKey): set<SealedKey> {
    if max == 0 then {k}
    else match Evicted(s.reserved, max, k, FirstIn) case Some(e) => {e} case None => {}
  }

  function AnswerTo(s: State, k: SealedKey, readable: bool): Answer {
    if k in s.reserved.entries then Deduped else if !readable then BadPayload else Sending
  }

  function Arrive(s: State, max: nat, k: SealedKey, readable: bool): State
    requires s.reserved.Valid()
  {
    var n := s.(arrived := s.arrived + 1);
    if AnswerTo(s, k, readable) != Sending then n
    else
      n.(reserved := Set(s.reserved, max, k, s.arrived, FirstIn),
         sending := s.sending[s.arrived := k],
         evicted := s.evicted + ThrownOut(s, max, k))
  }

  function End(s: State, request: nat, ok: bool): State
    requires s.reserved.Valid() && request in s.sending
  {
    var k := s.sending[request];
    var n := s.(sending := s.sending - {request});
    if ok then n.(delivered := s.delivered + [k]) else n.(reserved := s.reserved.Drop(k))
  }

  function Step(s: State, max: nat, e: Event): (n: State)
    requires s.reserved.Valid()
    ensures n.reserved.Valid()
  {
    match e
    case Arrives(k, readable) => Arrive(s, max, k, readable)
    case SendEnds(r, ok) => if r in s.sending then End(s, r, ok) else s
  }

  function Run(max: nat, events: seq<Event>): (s: State)
    ensures s.reserved.Valid()
  {
    if events == [] then INITIAL else Step(Run(max, events[..|events| - 1]), max, events[|events| - 1])
  }

  function Times(delivered: seq<SealedKey>, k: SealedKey): nat {
    if delivered == [] then 0
    else Times(delivered[..|delivered| - 1], k) + if delivered[|delivered| - 1] == k then 1 else 0
  }

  lemma TimesSnoc(delivered: seq<SealedKey>, d: SealedKey, k: SealedKey)
    ensures Times(delivered + [d], k) == Times(delivered, k) + if d == k then 1 else 0
  {
    assert (delivered + [d])[..|delivered|] == delivered;
  }

  /** What holds of one key as long as the map has not lost it. */
  ghost predicate KeyOk(s: State, k: SealedKey) {
    k !in s.evicted ==>
      && (forall r :: r in s.sending && s.sending[r] == k ==> k in s.reserved.entries && s.reserved.entries[k] == r)
      && Times(s.delivered, k) <= 1
      && (Times(s.delivered, k) == 1 ==>
            k in s.reserved.entries && forall r :: r in s.sending ==> s.sending[r] != k)
  }

  ghost predicate Inv(s: State, max: nat) {
    && |s.reserved.order| <= max
    && (forall r :: r in s.sending ==> r < s.arrived)
    && forall k :: KeyOk(s, k)
  }

  lemma ArriveKeeps(s: State, max: nat, key: SealedKey, readable: bool)
    requires Inv(s, max) && s.reserved.Valid()
    ensures Inv(Arrive(s, max, key, readable), max)
  {
    hide Times, Lowest, KeyOk;
    var n := Arrive(s, max, key, readable);
    forall k
      ensures KeyOk(n, k)
    {
      assert KeyOk(s, k);
      KeyOkAfterArrival(s, max, key, readable, k);
    }
    if AnswerTo(s, key, readable) == Sending {
      SetKeepsBound(s.reserved, max, key, s.arrived, FirstIn);
      SizeIsOrder(n.reserved);
      SizeIsOrder(s.reserved);
    }
  }

  lemma KeyOkAfterArrival(s: State, max: nat, key: SealedKey, readable: bool, k: SealedKey)
    requires s.reserved.Valid() && |s.reserved.order| <= max && KeyOk(s, k)
    requires forall r :: r in s.sending ==> r < s.arrived
    ensures KeyOk(Arrive(s, max, key, readable), k)
  {
    hide Times, Set, Evicted;
    if AnswerTo(s, key, readable) == Sending {
      SetKeepsBound(s.reserved, max, key, s.arrived, FirstIn);
    }
  }

  lemma EndKeeps(s: State, max: nat, r: nat, ok: bool)
    requires Inv(s, max) && s.reserved.Valid() && r in s.sending
    ensures Inv(End(s, r, ok), max)
  {
    hide Times;
    var n := End(s, r, ok);
    forall k
      ensures KeyOk(n, k)
    {
      assert KeyOk(s, k);
      TimesSnoc(s.delivered, s.sending[r], k);
    }
  }

  lemma {:induction false} RunsKeep(max: nat, events: seq<Event>)
    ensures Inv(Run(max, events), max)
  {
    hide KeyOk;
    if events == [] {
      InitialInv(max);
    } else {
      var past, e := events[..|events| - 1], events[|events| - 1];
      RunsKeep(max, past);
      match e
      case Arrives(k, readable) => ArriveKeeps(Run(max, past), max, k, readable);
      case SendEnds(r, ok) =>
        if r in Run(max, past).sending {
          EndKeeps(Run(max, past), max, r, ok);
        }
    }
  }

  lemma InitialInv(max: nat)
    ensures Inv(INITIAL, max)
  {
  }

  // Over every interleaving, a key that was never evicted has at most one send under way, at most one
  // that succeeded, and never both.
  lemma AtMostOnce(max: nat, events: seq<Event>, k: SealedKey)
    requires k !in Run(max, events).evicted
    ensures var s := Run(max, events);
            && Times(s.delivered, k) <= 1
            && (forall a, b :: a in s.sending && b in s.sending && s.sending[a] == k && s.sending[b] == k ==> a == b)
            && (Times(s.delivered, k) == 1 ==> forall r :: r in s.sending ==> s.sending[r] != k)
            && (Times(s.delivered, k) == 1 ==> AnswerTo(s, k, true) == Deduped)
  {
    hide Run, Times;
    RunsKeep(max, events);
    assert KeyOk(Run(max, events), k);
  }

  // While a key is reserved every request for it is answered as a duplicate, readable or not; otherwise an
  // unreadable one is refused, and reserves nothing.
  lemma AnswersExactly(max: nat, events: seq<Event>, k: SealedKey, readable: bool)
    ensures var s := Run(max, events);
            var n, answer := Step(s, max, Arrives(k, readable)), AnswerTo(s, k, readable);
            && (answer == Deduped <==> k in s.reserved.entries)
            && (answer == Sending <==> readable && k !in s.reserved.entries)
            && (answer == Sending ==> n.sending == s.sending[s.arrived := k])
            && (answer != Sending ==> n.reserved == s.reserved && n.sending == s.sending)
            && (answer == Sending && max > 0 ==> k in n.reserved.entries && n.reserved.entries[k] == s.arrived)
            && n.delivered == s.delivered
  {
    hide Run, Lowest;
    RunsKeep(max, events);
    var s := Run(max, events);
    if AnswerTo(s, k, readable) == Sending {
      SetKeepsBound(s.reserved, max, k, s.arrived, FirstIn);
    }
  }

  // A reservation is taken back only by the request that made it, when its send has failed; and then
  // the very next request for the key is sent.
  lemma ReleasedByItsReserver(max: nat, events: seq<Event>, e: Event, k: SealedKey)
    requires var s := Run(max, events);
             k in s.reserved.entries && k !in Step(s, max, e).reserved.entries && k !in Step(s, max, e).evicted
    ensures var s := Run(max, events);
            && e == SendEnds(s.reserved.entries[k], false)
            && AnswerTo(Step(s, max, e), k, true) == Sending
            && Times(Step(s, max, e).delivered, k) == 0
  {
    hide Run, Times, Lowest;
    RunsKeep(max, events);
    var s := Run(max, events);
    assert KeyOk(s, k);
    if e.Arrives? && AnswerTo(s, e.key, e.readable) == Sending {
      SetKeepsBound(s.reserved, max, e.key, s.arrived, FirstIn);
    }
  }

  // A failed send leaves its key free, and nothing but the next request for that key ends this: that
  // request, whenever it comes, is sent.
  lemma {:induction false} FailureIsRetryable(max: nat, events: seq<Event>, r: nat, later: seq<Event>)
    requires r in Run(max, events).sending && Run(max, events).sending[r] !in KeysOf(later)
    ensures AnswerTo(Run(max, events + [SendEnds(r, false)] + later), Run(max, events).sending[r], true) == Sending
  {
    hide Run, KeysOf, Lowest;
    var k := Run(max, events).sending[r];
    var failed := events + [SendEnds(r, false)];
    RunSnoc(max, events, SendEnds(r, false));
    if later == [] {
      assert failed + later == failed;
    } else {
      var past, e := later[..|later| - 1], later[|later| - 1];
      assert later == past + [e];
      KeysSnoc(past, e);
      FailureIsRetryable(max, events, r, past);
      assert failed + later == failed + past + [e];
      RunSnoc(max, failed + past, e);
      StaysFree(Run(max, failed + past), max, e, k);
    }
  }

  lemma StaysFree(s: State, max: nat, e: Event, k: SealedKey)
    requires s.reserved.Valid() && k !in s.reserved.entries && e != Arrives(k, true)
    ensures k !in Step(s, max, e).reserved.entries
  {
    hide Lowest;
  }

  // ---------------------------------------------------------------- what a duplicate answer means

  /** A reserved key has been delivered, or the send that reserved it is under way. */
  ghost predicate ReservationsStand(s: State) {
    forall k :: k in s.reserved.entries ==>
      Times(s.delivered, k) >= 1 || (s.reserved.entries[k] in s.sending && s.sending[s.reserved.entries[k]] == k)
  }

  lemma StepKeepsReservations(s: State, max: nat, e: Event)
    requires Inv(s, max) && s.reserved.Valid() && ReservationsStand(s)
    ensures ReservationsStand(Step(s, max, e))
  {
    hide Times, Lowest, KeyOk, Set, Evicted;
    match e
    case Arrives(k, readable) =>
      if AnswerTo(s, k, readable) == Sending {
        SetKeepsBound(s.reserved, max, k, s.arrived, FirstIn);
      }
    case SendEnds(r, ok) =>
      if r in s.sending {
        forall k
          ensures Times(s.delivered + [s.sending[r]], k) == Times(s.delivered, k) + if s.sending[r] == k then 1 else 0
        {
          TimesSnoc(s.delivered, s.sending[r], k);
        }
      }
  }

  lemma {:induction false} RunsKeepReservations(max: nat, events: seq<Event>)
    ensures ReservationsStand(Run(max, events))
  {
    hide ReservationsStand, Step;
    if events == [] {
      NothingReserved();
    } else {
      var past := events[..|events| - 1];
      RunsKeep(max, past);
      RunsKeepReservations(max, past);
      StepKeepsReservations(Run(max, past), max, events[|events| - 1]);
    }
  }

  lemma NothingReserved()
    ensures ReservationsStand(INITIAL)
  {
  }

  ghost predicate InFlight(s: State, k: SealedKey) {
    exists r :: r in s.sending && s.sending[r] == k
  }

  // Over every run, a request answered as a duplicate repeats a delivery that has succeeded or one that
  // is under way. For a key never evicted it is exactly one of the two: the answer means delivered if
  // and only if no send of the key is under way.
  lemma DuplicateMeansDeliveredExactly(max: nat, events: seq<Event>, k: SealedKey, readable: bool)
    requires AnswerTo(Run(max, events), k, readable) == Deduped
    ensures var s := Run(max, events);
            && (!InFlight(s, k) ==> Times(s.delivered, k) >= 1)
            && (k !in s.evicted ==> (Times(s.delivered, k) == 1 <==> !InFlight(s, k)))
  {
    hide Run, Times;
    RunsKeep(max, events);
    RunsKeepReservations(max, events);
    assert KeyOk(Run(max, events), k);
  }

  // While it is under way, being answered as a duplicate is no promise of delivery: the send it repeats
  // can still fail.
  lemma DuplicateAnswerIsNoReceipt(max: nat, k: SealedKey)
    requires max > 0
    ensures var first := [Arrives(k, true)];
            var all := first + [Arrives(k, true)] + [SendEnds(0, false)];
            AnswerTo(Run(max, first), k, true) == Deduped && Run(max, all).delivered == []
  {
    hide Run, Lowest;
    RunStart(max);
    RunSnoc(max, [], Arrives(k, true));
    assert [] + [Arrives(k, true)] == [Arrives(k, true)];
    RunSnoc(max, [Arrives(k, true)], Arrives(k, true));
    RunSnoc(max, [Arrives(k, true)] + [Arrives(k, true)], SendEnds(0, false));
  }

  // ---------------------------------------------------------------- how many keys the map must hold

  /** The keys that some request of the run could reserve. */
  function KeysOf(events: seq<Event>): set<SealedKey> {
    if events == [] then {}
    else
      var e := events[|events| - 1];
      KeysOf(events[..|events| - 1]) + if e.Arrives? && e.readable then {e.key} else {}
  }

  lemma KeysSnoc(past: seq<Event>, e: Event)
    ensures KeysOf(past + [e]) == KeysOf(past) + if e.Arrives? && e.readable then {e.key} else {}
  {
    assert (past + [e])[..|past|] == past;
  }

  // Nothing is evicted as long as the map has room for all the keys of the run.
  lemma {:induction false} RoomMeansNoEviction(max: nat, events: seq<Event>)
    requires |KeysOf(events)| <= max
    ensures Run(max, events).evicted == {} && Run(max, events).reserved.entries.Keys <= KeysOf(events)
  {
    if events != [] {
      var past, e := events[..|events| - 1], events[|events| - 1];
      SubsetSize(KeysOf(past), KeysOf(events));
      RoomMeansNoEviction(max, past);
      if e.Arrives? && AnswerTo(Run(max, past), e.key, e.readable) == Sending {
        RoomForOne(Run(max, past), max, e.key, KeysOf(events));
      }
    }
  }

  lemma RoomForOne(s: State, max: nat, k: SealedKey, all: set<SealedKey>)
    requires s.reserved.Valid() && k !in s.reserved.entries
    requires s.reserved.entries.Keys + {k} <= all && |all| <= max
    ensures ThrownOut(s, max, k) == {} && Set(s.reserved, max, k, s.arrived, FirstIn).entries.Keys <= all
  {
    SubsetSize(s.reserved.entries.Keys + {k}, all);
    assert |s.reserved.entries.Keys + {k}| == |s.reserved.entries| + 1;
    SizeIsOrder(s.reserved);
  }

  /** Runs over at most `n` keys send none of them twice. */
  ghost predicate SentOnceUpTo(max: nat, n: nat) {
    forall events, k :: |KeysOf(events)| <= n ==> Times(Run(max, events).delivered, k) <= 1
  }

  // Whatever the interleaving, no key is sent twice if the map has a slot for every key there is; and
  // with one key more than slots there is a run that sends one of them twice.
  lemma SentOnceExactlyUpToMax(max: nat, n: nat)
    ensures SentOnceUpTo(max, n) <==> n <= max
  {
    hide Run, Times, KeysOf;
    if n <= max {
      forall events, k | |KeysOf(events)| <= n
        ensures Times(Run(max, events).delivered, k) <= 1
      {
        RoomMeansNoEviction(max, events);
        AtMostOnce(max, events, k);
      }
    } else {
      var events := SendsTwice(max);
    }
  }

  function NthKey(i: nat): SealedKey {
    seq(i, _ => 'k')
  }

  /** One request for each of the first `n` keys. */
  function Arrivals(n: nat): seq<Event> {
    if n == 0 then [] else Arrivals(n - 1) + [Arrives(NthKey(n - 1), true)]
  }

  lemma {:induction false} ArrivalKeys(n: nat)
    ensures |KeysOf(Arrivals(n))| <= n && (n > 0 ==> NthKey(0) in KeysOf(Arrivals(n)))
  {
    if n > 0 {
      ArrivalKeys(n - 1);
      KeysSnoc(Arrivals(n - 1), Arrives(NthKey(n - 1), true));
    }
  }

  /** The first `n` keys are reserved in order, and all their sends under way. */
  ghost predicate Filled(s: State, n: nat) {
    && s.reserved.Valid() && |s.reserved.order| == n && s.arrived == n && s.delivered == []
    && (forall i :: 0 <= i < n ==> s.reserved.order[i] == NthKey(i))
    && (forall i :: 0 <= i < n ==> i in s.sending && s.sending[i] == NthKey(i))
  }

  lemma {:induction false} ArrivalsFill(max: nat, n: nat)
    requires n <= max
    ensures Filled(Run(max, Arrivals(n)), n)
  {
    hide Lowest, Run, Arrive, Filled;
    if n == 0 {
      NothingFilled(max);
    } else {
      ArrivalsFill(max, n - 1);
      RunSnoc(max, Arrivals(n - 1), Arrives(NthKey(n - 1), true));
      FillOne(Run(max, Arrivals(n - 1)), max, n - 1);
    }
  }

  lemma NothingFilled(max: nat)
    ensures Filled(Run(max, []), 0)
  {
    RunStart(max);
  }

  lemma FillOne(s: State, max: nat, n: nat)
    requires Filled(s, n) && n < max
    ensures Filled(Arrive(s, max, NthKey(n), true), n + 1)
  {
    hide Lowest, Times;
    assert NthKey(n) !in s.reserved.order;
  }

  // A full map forgets the first key, whose send is still under way.
  lemma FullMapForgets(s: State, max: nat)
    requires Filled(s, max)
    ensures var n := Arrive(s, max, NthKey(max), true);
            && n.reserved.Valid() && NthKey(0) !in n.reserved.entries && n.delivered == [] && n.arrived == max + 1
            && 0 in n.sending && n.sending[0] == NthKey(0)
  {
    hide Times;
    assert NthKey(max) !in s.reserved.order;
    if max > 0 {
      LowestIsLowest(s.reserved.order, FirstIn, 0);
      assert Evicted(s.reserved, max, NthKey(max), FirstIn) == Some(NthKey(0));
    }
  }

  lemma SendsTwice(max: nat) returns (events: seq<Event>)
    ensures |KeysOf(events)| <= max + 1 && Times(Run(max, events).delivered, NthKey(0)) == 2
  {
    hide Run, Times, KeysOf, Lowest, Set, Evicted;
    var k := NthKey(0);
    events := Arrivals(max);
    ArrivalsFill(max, max);
    FullMapForgets(Run(max, events), max);
    RunSnoc(max, events, Arrives(NthKey(max), true));
    events := Arrivals(max + 1);
    ArrivalKeys(max + 1);
    events := Then(max, events, Arrives(k, true));
    events := Then(max, events, SendEnds(0, true));
    events := Then(max, events, SendEnds(max + 1, true));
    NoTimes(k);
    TimesSnoc([], k, k);
    TimesSnoc([] + [k], k, k);
  }

  lemma Then(max: nat, past: seq<Event>, e: Event) returns (all: seq<Event>)
    ensures all == past + [e] && Run(max, all) == Step(Run(max, past), max, e)
    ensures KeysOf(all) == KeysOf(past) + if e.Arrives? && e.readable then {e.key} else {}
  {
    hide Run, Step, KeysOf;
    RunSnoc(max, past, e);
    KeysSnoc(past, e);
    all := past + [e];
  }

  lemma NoTimes(k: SealedKey)
    ensures Times([], k) == 0
  {
  }

  lemma RunStart(max: nat)
    ensures Run(max, []) == INITIAL
  {
  }

  lemma RunSnoc(max: nat, past: seq<Event>, e: Event)
    ensures Run(max, past + [e]) == Step(Run(max, past), max, e)
  {
    assert (past + [e])[..|past|] == past;
  }

  // ---------------------------------------------------------------- the relays

  class RelayServer {
    const recentlyDelivered: BoundedFifoMap<SealedKey, nat>
    var sending: map<nat, SealedKey>
    var arrived: nat
    ghost var delivered: seq<SealedKey>
    ghost var evicted: set<SealedKey>
    ghost var history: seq<Event>

    ghost function Now(): State
      reads this, recentlyDelivered
    {
      State(recentlyDelivered.contents, sending, arrived, delivered, evicted)
    }

    ghost predicate Valid()
      reads this, recentlyDelivered
    {
      recentlyDelivered.Valid() && Now() == Run(recentlyDelivered.maxSize, history)
    }

    constructor (maxRecentlyDeliveredEntries: nat)
      ensures Valid() && history == [] && fresh(recentlyDelivered)
      ensures recentlyDelivered.maxSize == maxRecentlyDeliveredEntries
    {
      recentlyDelivered := new BoundedFifoMap(maxRecentlyDeliveredEntries);
      sending, arrived, delivered, evicted, history := map[], 0, [], {}, [];
    }

    /** `route` up to its await: from the dedup key to the send. */
    method Route(dedupKey: SealedKey, readable: bool) returns (answer: Answer, request: nat)
      requires Valid()
      modifies this, recentlyDelivered
      ensures Valid() && history == old(history) + [Arrives(dedupKey, readable)]
      ensures answer == AnswerTo(old(Now()), dedupKey, readable) && request == old(arrived)
      ensures answer == Sending ==> request in sending && sending[request] == dedupKey
    {
      hide Run, Lowest, Evicted, Set;
      RunSnoc(recentlyDelivered.maxSize, history, Arrives(dedupKey, readable));
      history := history + [Arrives(dedupKey, readable)];
      request := arrived;
      arrived := arrived + 1;
      var seen := recentlyDelivered.Get(dedupKey);
      if seen.Some? { return Deduped, request; }
      if !readable { return BadPayload, request; }
      var gone := recentlyDelivered.Put(dedupKey, request, FirstIn);
      evicted := evicted + if gone.Some? then {gone.value} else {};
      sending := sending[request := dedupKey];
      answer := Sending;
    }

    /** The rest of `route`, when the send has settled. */
    method AfterSend(request: nat, ok: bool)
      requires Valid() && request in sending
      modifies this, recentlyDelivered
      ensures Valid() && history == old(history) + [SendEnds(request, ok)]
    {
      hide Run;
      RunSnoc(recentlyDelivered.maxSize, history, SendEnds(request, ok));
      history := history + [SendEnds(request, ok)];
      var dedupKey := sending[request];
      sending := sending - {request};
      if ok {
        delivered := delivered + [dedupKey];
      } else {
        var had := recentlyDelivered.Delete(dedupKey);
      }
    }
  }
}
