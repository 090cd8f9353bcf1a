/**
 * The two-layer request budget of the internet and note gateways: one fixed window for the whole mesh,
 * and one for each caller still tracked.
 */
module RateLimiter {
  import opened Arithmetic
  import opened BoundedMaps
  import opened FifoMaps
  import opened Wrappers

  type PeerId = string

  datatype Limits = Limits(perPeer: nat, overall: nat, windowMs: nat, maxPeers: nat)

  type Config = l: Limits | l.windowMs > 0 witness Limits(10, 60, 60000, 500)

  datatype Window = Window(start: nat, count: nat)

  type Peers = FifoMap<PeerId, Window>

  /** The limiter's memory, and the times of the requests it has accepted. */
  datatype State = State(
    overall: Window,
    peers: Peers,
    accepted: seq<nat>,
    served: map<PeerId, seq<nat>>)  // of every tracked caller, since its entry was made

  const INITIAL := State(Window(0, 0), FifoMap(map[], []), [], map[])

  /** `rank` is the trust of every caller at this moment: the lowest-ranked one makes room. */
  datatype Call = Call(now: nat, peer: PeerId, rank: PeerId -> int)

  function Rolled(w: Window, windowMs: nat, now: nat): Window {
    if now - w.start >= windowMs then Window(now, 0) else w
  }

  predicate PeerAllowed(c: Config, s: State, call: Call) {
    call.peer !in s.peers.entries ||
    var w := s.peers.entries[call.peer]; call.now - w.start >= c.windowMs || w.count < c.perPeer
  }

  predicate Allowed(c: Config, s: State, call: Call) {
    Rolled(s.overall, c.windowMs, call.now).count < c.overall && PeerAllowed(c, s, call)
  }

  function NextPeerWindow(c: Config, s: State, call: Call): Window {
    var expired := call.peer !in s.peers.entries || call.now - s.peers.entries[call.peer].start >= c.windowMs;
    if expired then Window(call.now, 1)
    else s.peers.entries[call.peer].(count := s.peers.entries[call.peer].count + 1)
  }

  function Check(c: Config, s: State, call: Call): State
    requires s.peers.Valid()
  {
    var overall := Rolled(s.overall, c.windowMs, call.now);
    if !Allowed(c, s, call) then s.(overall := overall)
    else
      var before := if call.peer in s.served then s.served[call.peer] else [];
      var evicted := Evicted(s.peers, c.maxPeers, call.peer, call.rank);
      var kept := s.served - (match evicted case Some(e) => {e} case None => {});
      State(overall.(count := overall.count + 1),
            Set(s.peers, c.maxPeers, call.peer, NextPeerWindow(c, s, call), call.rank),
            s.accepted + [call.now],
            if c.maxPeers == 0 then s.served else kept[call.peer := before + [call.now]])
  }

  function Run(c: Config, calls: seq<Call>): (s: State)
    ensures s.peers.Valid()
  {
    if calls == [] then INITIAL else Check(c, Run(c, calls[..|calls| - 1]), calls[|calls| - 1])
  }

  ghost predicate Monotone(calls: seq<Call>) {
    forall i, j :: 0 <= i < j < |calls| ==> calls[i].now <= calls[j].now
  }

  // ---------------------------------------------------------------- counting

  /** How many of the given times lie in the half-open interval from `a` to `b`. */
  function Within(times: seq<nat>, a: nat, b: nat): nat {
    if times == [] then 0
    else Within(times[..|times| - 1], a, b) + if a <= times[|times| - 1] < b then 1 else 0
  }

  function Since(times: seq<nat>, a: nat): nat {
    if times == [] then 0 else Since(times[..|times| - 1], a) + if a <= times[|times| - 1] then 1 else 0
  }

  lemma {:induction false} WithinIsSince(times: seq<nat>, a: nat, b: nat)
    ensures Within(times, a, b) <= Since(times, a)
  {
    if times != [] {
      WithinIsSince(times[..|times| - 1], a, b);
    }
  }

  lemma SinceSnoc(times: seq<nat>, t: nat, a: nat)
    ensures Since(times + [t], a) == Since(times, a) + if a <= t then 1 else 0
  {
    assert (times + [t])[..|times|] == times;
  }

  lemma WithinSnoc(times: seq<nat>, t: nat, a: nat, b: nat)
    ensures Within(times + [t], a, b) == Within(times, a, b) + if a <= t < b then 1 else 0
  {
    assert (times + [t])[..|times|] == times;
  }

  lemma {:induction false} NoneSince(times: seq<nat>, a: nat)
    requires forall i :: 0 <= i < |times| ==> times[i] < a
    ensures Since(times, a) == 0
  {
    if times != [] {
      NoneSince(times[..|times| - 1], a);
    }
  }

  // ---------------------------------------------------------------- one window

  /** The most a window now at `w` can have accepted since `a`: a full budget for each earlier window. */
  function Potential(w: Window, budget: nat, windowMs: nat, a: nat): nat
    requires windowMs > 0
  {
    (if w.start <= a then 0 else budget * CeilDiv(w.start - a, windowMs)) + w.count
  }

  ghost predicate Fits(w: Window, times: seq<nat>, budget: nat, windowMs: nat)
    requires windowMs > 0
  {
    && w.count <= budget
    && (forall i :: 0 <= i < |times| ==> times[i] < w.start + windowMs)
    && (forall a: nat :: Since(times, a) <= Potential(w, budget, windowMs, a))
  }

  lemma NewWindowFits(now: nat, budget: nat, windowMs: nat)
    requires windowMs > 0
    ensures Fits(Window(now, 0), [], budget, windowMs)
  {
  }

  lemma RolledFits(w: Window, times: seq<nat>, budget: nat, windowMs: nat, now: nat)
    requires windowMs > 0 && Fits(w, times, budget, windowMs) && w.start <= now
    ensures Fits(Rolled(w, windowMs, now), times, budget, windowMs)
  {
    hide Since, CeilDiv;
    if now - w.start >= windowMs {
      forall a: nat
        ensures Since(times, a) <= Potential(Window(now, 0), budget, windowMs, a)
      {
        OneMoreWindow(w, times, budget, windowMs, now, a);
      }
    }
  }

  lemma OneMoreWindow(w: Window, times: seq<nat>, budget: nat, windowMs: nat, now: nat, a: nat)
    requires windowMs > 0 && Fits(w, times, budget, windowMs) && now - w.start >= windowMs
    ensures Since(times, a) <= Potential(Window(now, 0), budget, windowMs, a)
  {
    hide Since, CeilDiv, Fits;
    FitsSince(w, times, budget, windowMs, a);
    if now <= a {
      FitsEnd(w, times, budget, windowMs, a);
    } else if w.start <= a {
      CeilDivMonotone(1, now - a, windowMs);
      assert CeilDiv(1, windowMs) == 1;
      Scaled(budget, 1, CeilDiv(now - a, windowMs));
    } else {
      CeilDivStep(w.start - a, windowMs);
      CeilDivMonotone(w.start - a + windowMs, now - a, windowMs);
      Scaled(budget, CeilDiv(w.start - a, windowMs) + 1, CeilDiv(now - a, windowMs));
      Scaled(budget, CeilDiv(w.start - a, windowMs), CeilDiv(w.start - a, windowMs));
    }
  }

  lemma FitsSince(w: Window, times: seq<nat>, budget: nat, windowMs: nat, a: nat)
    requires windowMs > 0 && Fits(w, times, budget, windowMs)
    ensures w.count <= budget && Since(times, a) <= Potential(w, budget, windowMs, a)
  {
  }

  lemma FitsEnd(w: Window, times: seq<nat>, budget: nat, windowMs: nat, a: nat)
    requires windowMs > 0 && Fits(w, times, budget, windowMs) && w.start + windowMs <= a
    ensures Since(times, a) == 0
  {
    NoneSince(times, a);
  }

  lemma Scaled(n: nat, x: nat, y: nat)
    requires x <= y
    ensures n * x <= n * y && n * (x + 1) == n * x + n
  {
  }

  lemma TakenFits(w: Window, times: seq<nat>, budget: nat, windowMs: nat, now: nat)
    requires windowMs > 0 && Fits(w, times, budget, windowMs)
    requires w.start <= now < w.start + windowMs && w.count < budget
    ensures Fits(Window(w.start, w.count + 1), times + [now], budget, windowMs)
  {
    hide Since, CeilDiv;
    forall a: nat
      ensures Since(times + [now], a) <= Potential(Window(w.start, w.count + 1), budget, windowMs, a)
    {
      SinceSnoc(times, now, a);
      assert Since(times, a) <= Potential(w, budget, windowMs, a);
    }
  }

  /** A full budget for each window that an interval of this length can touch. */
  function Most(budget: nat, windowMs: nat, length: nat): nat
    requires windowMs > 0
  {
    budget * (CeilDiv(length, windowMs) + 1)
  }

  lemma IntervalBound(w: Window, times: seq<nat>, budget: nat, windowMs: nat, a: nat, b: nat)
    requires windowMs > 0 && Fits(w, times, budget, windowMs) && a <= b && w.start < b
    ensures Within(times, a, b) <= Most(budget, windowMs, b - a)
  {
    hide Since, CeilDiv, Within, Fits;
    WithinIsSince(times, a, b);
    FitsSince(w, times, budget, windowMs, a);
    var k := CeilDiv(b - a, windowMs);
    Scaled(budget, k, k);
    Scaled(budget, 0, k);
    if w.start > a {
      CeilDivMonotone(w.start - a, b - a, windowMs);
      Scaled(budget, CeilDiv(w.start - a, windowMs), k);
    }
  }

  /** No half-open interval holds more than that. */
  ghost predicate Budgeted(times: seq<nat>, budget: nat, windowMs: nat)
    requires windowMs > 0
  {
    forall a: nat, b: nat :: a <= b ==> Within(times, a, b) <= Most(budget, windowMs, b - a)
  }

  lemma BudgetKept(w: Window, times: seq<nat>, budget: nat, windowMs: nat, now: nat)
    requires windowMs > 0 && Budgeted(times, budget, windowMs)
    requires Fits(w, times + [now], budget, windowMs) && w.start <= now
    ensures Budgeted(times + [now], budget, windowMs)
  {
    hide Within, Fits, Most;
    forall a: nat, b: nat | a <= b
      ensures Within(times + [now], a, b) <= Most(budget, windowMs, b - a)
    {
      if now >= b {
        WithinSnoc(times, now, a, b);
      } else {
        IntervalBound(w, times + [now], budget, windowMs, a, b);
      }
    }
  }

  lemma NothingIsBudgeted(budget: nat, windowMs: nat)
    requires windowMs > 0
    ensures Budgeted([], budget, windowMs)
  {
    hide Most;
  }

  // ---------------------------------------------------------------- runs

  function PeerBudget(c: Config): nat {
    if c.perPeer == 0 then 1 else c.perPeer
  }

  /** A window and the requests accepted under it so far, the last of them not after `now`. */
  ghost predicate Fair(w: Window, times: seq<nat>, budget: nat, windowMs: nat, now: nat)
    requires windowMs > 0
  {
    w.start <= now && Fits(w, times, budget, windowMs) && Budgeted(times, budget, windowMs)
  }

  ghost predicate PeersFair(c: Config, s: State, now: nat) {
    && (forall p :: p in s.peers.entries <==> p in s.served)
    && forall p :: p in s.peers.entries ==>
         Fair(s.peers.entries[p], s.served[p], PeerBudget(c), c.windowMs, now)
  }

  ghost predicate Inv(c: Config, s: State, now: nat) {
    && Fair(s.overall, s.accepted, c.overall, c.windowMs, now)
    && |s.peers.order| <= c.maxPeers
    && PeersFair(c, s, now)
  }

  lemma LaterIsFair(w: Window, times: seq<nat>, budget: nat, windowMs: nat, now: nat, later: nat)
    requires windowMs > 0 && Fair(w, times, budget, windowMs, now) && now <= later
    ensures Fair(Rolled(w, windowMs, later), times, budget, windowMs, later)
    ensures Fair(w, times, budget, windowMs, later)
  {
    hide Fits, Budgeted;
    RolledFits(w, times, budget, windowMs, later);
  }

  lemma TakenIsFair(w: Window, times: seq<nat>, budget: nat, windowMs: nat, now: nat)
    requires windowMs > 0 && Fair(w, times, budget, windowMs, now)
    requires now < w.start + windowMs && w.count < budget
    ensures Fair(Window(w.start, w.count + 1), times + [now], budget, windowMs, now)
  {
    hide Fits, Budgeted;
    TakenFits(w, times, budget, windowMs, now);
    BudgetKept(Window(w.start, w.count + 1), times, budget, windowMs, now);
  }

  lemma NothingIsFair(budget: nat, windowMs: nat, now: nat)
    requires windowMs > 0
    ensures Fair(Window(now, 0), [], budget, windowMs, now)
  {
    NewWindowFits(now, budget, windowMs);
    NothingIsBudgeted(budget, windowMs);
  }

  lemma OverallKept(c: Config, s: State, now: nat, call: Call)
    requires Inv(c, s, now) && s.peers.Valid() && now <= call.now
    ensures var n := Check(c, s, call); Fair(n.overall, n.accepted, c.overall, c.windowMs, call.now)
  {
    hide Fair, PeersFair, Set, Evicted, PeerAllowed;
    LaterIsFair(s.overall, s.accepted, c.overall, c.windowMs, now, call.now);
    if Allowed(c, s, call) {
      TakenIsFair(Rolled(s.overall, c.windowMs, call.now), s.accepted, c.overall, c.windowMs, call.now);
    }
  }

  lemma CallerKept(c: Config, s: State, now: nat, call: Call)
    requires PeersFair(c, s, now) && now <= call.now && PeerAllowed(c, s, call)
    ensures var before := if call.peer in s.served then s.served[call.peer] else [];
            Fair(NextPeerWindow(c, s, call), before + [call.now], PeerBudget(c), c.windowMs, call.now)
  {
    hide Fair;
    var p, n := call.peer, PeerBudget(c);
    if p !in s.peers.entries {
      NothingIsFair(n, c.windowMs, call.now);
      TakenIsFair(Window(call.now, 0), [], n, c.windowMs, call.now);
    } else {
      var w := s.peers.entries[p];
      LaterIsFair(w, s.served[p], n, c.windowMs, now, call.now);
      TakenIsFair(Rolled(w, c.windowMs, call.now), s.served[p], n, c.windowMs, call.now);
    }
  }

  lemma PeersKept(c: Config, s: State, now: nat, call: Call)
    requires Inv(c, s, now) && s.peers.Valid() && now <= call.now
    ensures var n := Check(c, s, call); |n.peers.order| <= c.maxPeers && PeersFair(c, n, call.now)
  {
    hide Fair, NextPeerWindow;
    var n := Check(c, s, call);
    forall p | p in s.peers.entries
      ensures Fair(s.peers.entries[p], s.served[p], PeerBudget(c), c.windowMs, call.now)
    {
      LaterIsFair(s.peers.entries[p], s.served[p], PeerBudget(c), c.windowMs, now, call.now);
    }
    if Allowed(c, s, call) {
      CallerKept(c, s, now, call);
      PeersAfterSet(c, s, call);
    }
  }

  lemma PeersAfterSet(c: Config, s: State, call: Call)
    requires s.peers.Valid() && |s.peers.order| <= c.maxPeers && Allowed(c, s, call)
    requires forall p :: p in s.peers.entries <==> p in s.served
    ensures var n, e := Check(c, s, call), Evicted(s.peers, c.maxPeers, call.peer, call.rank);
            && |n.peers.order| <= c.maxPeers
            && (forall p :: p in n.peers.entries <==> p in n.served)
            && (forall p :: p in n.peers.entries && p != call.peer ==>
                  p in s.peers.entries && n.peers.entries[p] == s.peers.entries[p] && n.served[p] == s.served[p])
            && (call.peer in n.peers.entries ==>
                  n.peers.entries[call.peer] == NextPeerWindow(c, s, call) &&
                  n.served[call.peer] == (if call.peer in s.served then s.served[call.peer] else []) + [call.now])
  {
    hide Lowest, NextPeerWindow, PeerAllowed;
    var n := Check(c, s, call);
    SetKeepsBound(s.peers, c.maxPeers, call.peer, NextPeerWindow(c, s, call), call.rank);
    SizeIsOrder(n.peers);
    if c.maxPeers == 0 {
      SizeIsOrder(s.peers);
    }
  }

  lemma {:induction false} RunsKeep(c: Config, calls: seq<Call>)
    requires Monotone(calls)
    ensures Inv(c, Run(c, calls), if calls == [] then 0 else calls[|calls| - 1].now)
  {
    hide Fair;
    if calls == [] {
      NothingIsFair(c.overall, c.windowMs, 0);
    } else {
      var past, call := calls[..|calls| - 1], calls[|calls| - 1];
      RunsKeep(c, past);
      var now := if past == [] then 0 else past[|past| - 1].now;
      OverallKept(c, Run(c, past), now, call);
      PeersKept(c, Run(c, past), now, call);
    }
  }

  // With a monotone clock, no half-open interval ever sees more than a budget for each window it can
  // touch, however the callers interleave or rename themselves.
  lemma OverallBudget(c: Config, calls: seq<Call>, a: nat, b: nat)
    requires Monotone(calls) && a <= b
    ensures Within(Run(c, calls).accepted, a, b) <= c.overall * (CeilDiv(b - a, c.windowMs) + 1)
  {
    hide Within, Fits, Run;
    RunsKeep(c, calls);
    BudgetAt(Run(c, calls).accepted, c.overall, c.windowMs, a, b);
  }

  lemma BudgetAt(times: seq<nat>, budget: nat, windowMs: nat, a: nat, b: nat)
    requires windowMs > 0 && Budgeted(times, budget, windowMs) && a <= b
    ensures Within(times, a, b) <= budget * (CeilDiv(b - a, windowMs) + 1)
  {
    assert Within(times, a, b) <= Most(budget, windowMs, b - a);
  }

  // In particular at most twice the budget in any one window length.
  lemma TwiceTheBudget(c: Config, calls: seq<Call>, a: nat)
    requires Monotone(calls)
    ensures InOneWindow(c, calls, a) <= 2 * c.overall
  {
    OverallBudget(c, calls, a, a + c.windowMs);
  }

  // ---------------------------------------------------------------- when the bound is reached

  /** The clock has left the window that starts at the epoch, as every real one has. */
  ghost predicate RealClock(c: Config, calls: seq<Call>) {
    Monotone(calls) && forall i :: 0 <= i < |calls| ==> calls[i].now >= c.windowMs
  }

  /** How many of these times lie within one window length from `a` on. */
  function WindowFrom(c: Config, times: seq<nat>, a: nat): nat {
    Within(times, a, a + c.windowMs)
  }

  function InOneWindow(c: Config, calls: seq<Call>, a: nat): nat {
    WindowFrom(c, Run(c, calls).accepted, a)
  }

  ghost predicate TwiceHappens(c: Config) {
    exists calls, a: nat :: RealClock(c, calls) && InOneWindow(c, calls, a) == 2 * c.overall
  }

  /** One caller can use up its own budget and leave some of the mesh's, and the limiter remembers it. */
  predicate RejectedCallerCanOpen(c: Config) {
    c.windowMs > 1 && c.maxPeers > 0 && PeerBudget(c) < c.overall
  }

  // A rejected request is charged to neither budget, but it is the one that opens a new mesh window if
  // the last one is over.
  lemma RejectionIsFree(c: Config, s: State, call: Call)
    requires s.peers.Valid() && !Allowed(c, s, call)
    ensures var n := Check(c, s, call);
            && n == s.(overall := n.overall)
            && (n.overall == Window(call.now, 0) || call.now - s.overall.start < c.windowMs)
            && (n.overall == s.overall || call.now - s.overall.start >= c.windowMs)
  {
  }

  // Twice the budget within one window length takes a window that a rejected request has opened. So it
  // happens exactly if a caller can use up its own budget before the mesh's is used up.
  lemma TwiceTheBudgetHappens(c: Config)
    ensures TwiceHappens(c) <==> c.overall == 0 || RejectedCallerCanOpen(c)
  {
    hide Run, Within;
    if c.overall == 0 {
      NothingWithin(0, c.windowMs);
      assert Run(c, []) == INITIAL by { RunStart(c); }
      assert RealClock(c, []) && InOneWindow(c, [], 0) == 0;
    } else if RejectedCallerCanOpen(c) {
      TwoBursts(c);
    } else {
      forall calls, a: nat | RealClock(c, calls)
        ensures InOneWindow(c, calls, a) < 2 * c.overall
      {
        RunsAreTight(c, calls);
        TightAt(c, Run(c, calls), a);
      }
    }
  }

  lemma RunStart(c: Config)
    ensures Run(c, []) == INITIAL
  {
  }

  lemma NothingWithin(a: nat, b: nat)
    ensures Within([], a, b) == 0
  {
  }

  // ---- never, if every new window opens with an accepted request

  /** What a window that opened with a request at its start leaves for an interval from `a` on. */
  ghost predicate SinceTight(c: Config, w: Window, times: seq<nat>, a: nat) {
    && (w.start < a ==> Since(times, a) < w.count)
    && (w.start == a ==> Since(times, a) <= w.count)
    && (a < w.start < a + c.windowMs ==> Since(times, a) < c.overall + w.count)
  }

  ghost predicate WindowTight(c: Config, w: Window, times: seq<nat>) {
    && 1 <= w.count <= c.overall
    && (forall i :: 0 <= i < |times| ==> times[i] < w.start + c.windowMs)
    && forall a: nat :: SinceTight(c, w, times, a)
  }

  /** A caller whose window began after the mesh's has not used up as much as the mesh. */
  ghost predicate CallersTight(s: State, now: nat) {
    forall p :: p in s.peers.entries ==>
      var e := s.peers.entries[p];
      e.start <= now && e.count >= 1 && (e.start > s.overall.start ==> e.count < s.overall.count)
  }

  ghost predicate NeverTwice(c: Config, times: seq<nat>) {
    forall a: nat :: WindowFrom(c, times, a) < 2 * c.overall
  }

  ghost predicate Fresh(s: State) {
    s.overall == Window(0, 0) && s.accepted == [] && s.peers.entries == map[]
  }

  ghost predicate Tight(c: Config, s: State, now: nat) {
    && s.peers.Valid() && |s.peers.order| <= c.maxPeers && NeverTwice(c, s.accepted)
    && (Fresh(s) ||
        (s.overall.start <= now && WindowTight(c, s.overall, s.accepted) && CallersTight(s, now)))
  }

  lemma TightAt(c: Config, s: State, a: nat)
    requires NeverTwice(c, s.accepted)
    ensures WindowFrom(c, s.accepted, a) < 2 * c.overall
  {
  }

  // The call that finds the last window over is accepted.
  lemma OpeningIsAccepted(c: Config, s: State, now: nat, call: Call)
    requires Tight(c, s, now) && now <= call.now && call.now - s.overall.start >= c.windowMs
    requires c.overall > 0 && !RejectedCallerCanOpen(c) && c.windowMs > 1
    ensures Allowed(c, s, call)
  {
    hide NeverTwice;
    SizeIsOrder(s.peers);
  }

  lemma OpenedIsTight(c: Config, w: Window, times: seq<nat>, now: nat)
    requires c.overall > 0 && (times == [] || (WindowTight(c, w, times) && now - w.start >= c.windowMs))
    ensures WindowTight(c, Window(now, 1), times + [now])
  {
    hide Since;
    var first := Window(now, 1);
    forall a: nat
      ensures SinceTight(c, first, times + [now], a)
    {
      SinceSnoc(times, now, a);
      if now <= a || times == [] {
        NoneSince(times, a);
      } else {
        assert SinceTight(c, w, times, a);
      }
    }
  }

  lemma ChargedIsTight(c: Config, w: Window, times: seq<nat>, now: nat)
    requires WindowTight(c, w, times) && w.count < c.overall && w.start <= now < w.start + c.windowMs
    ensures WindowTight(c, Window(w.start, w.count + 1), times + [now])
  {
    hide Since;
    var next := Window(w.start, w.count + 1);
    forall a: nat
      ensures SinceTight(c, next, times + [now], a)
    {
      SinceSnoc(times, now, a);
      assert SinceTight(c, w, times, a);
    }
  }

  lemma NeverTwiceKept(c: Config, w: Window, times: seq<nat>, now: nat)
    requires NeverTwice(c, times) && WindowTight(c, w, times + [now]) && w.start <= now
    ensures NeverTwice(c, times + [now])
  {
    hide Since, Within;
    forall a: nat
      ensures WindowFrom(c, times + [now], a) < 2 * c.overall
    {
      WithinSnoc(times, now, a, a + c.windowMs);
      WithinIsSince(times + [now], a, a + c.windowMs);
      assert SinceTight(c, w, times + [now], a);
      assert WindowFrom(c, times, a) < 2 * c.overall;
    }
  }

  lemma CallersStayTight(c: Config, s: State, now: nat, call: Call)
    requires s.peers.Valid() && |s.peers.order| <= c.maxPeers && now <= call.now && Allowed(c, s, call)
    requires Fresh(s) || (CallersTight(s, now) && s.overall.start <= now && s.overall.count >= 1)
    requires call.now >= c.windowMs
    ensures CallersTight(Check(c, s, call), call.now)
  {
    hide Lowest, Set, Evicted;
    SetKeepsBound(s.peers, c.maxPeers, call.peer, NextPeerWindow(c, s, call), call.rank);
  }

  lemma AcceptedStaysTight(c: Config, s: State, now: nat, call: Call)
    requires Tight(c, s, now) && now <= call.now && call.now >= c.windowMs
    requires c.overall > 0 && Allowed(c, s, call)
    ensures Tight(c, Check(c, s, call), call.now)
  {
    hide WindowTight, CallersTight, NeverTwice, Set, Evicted, PeerAllowed, NextPeerWindow;
    var n := Check(c, s, call);
    if call.now - s.overall.start >= c.windowMs {
      OpenedIsTight(c, s.overall, s.accepted, call.now);
    } else {
      ChargedIsTight(c, s.overall, s.accepted, call.now);
    }
    NeverTwiceKept(c, n.overall, s.accepted, call.now);
    AtLeastOne(c, s);
    CallersStayTight(c, s, now, call);
    SetKeepsBound(s.peers, c.maxPeers, call.peer, NextPeerWindow(c, s, call), call.rank);
    SizeIsOrder(n.peers);
  }

  lemma AtLeastOne(c: Config, s: State)
    ensures WindowTight(c, s.overall, s.accepted) ==> s.overall.count >= 1
  {
  }

  lemma RejectedStaysTight(c: Config, s: State, now: nat, call: Call)
    requires Tight(c, s, now) && now <= call.now && call.now >= c.windowMs && !Fresh(s)
    requires call.now - s.overall.start < c.windowMs && !Allowed(c, s, call)
    ensures Tight(c, Check(c, s, call), call.now)
  {
    hide WindowTight, NeverTwice, PeerAllowed;
    RejectionIsFree(c, s, call);
  }

  lemma {:induction false} RunsAreTight(c: Config, calls: seq<Call>)
    requires RealClock(c, calls) && c.overall > 0 && !RejectedCallerCanOpen(c)
    ensures NeverTwice(c, Run(c, calls).accepted)
    ensures c.windowMs > 1 ==> Tight(c, Run(c, calls), if calls == [] then 0 else calls[|calls| - 1].now)
  {
    hide Tight, NeverTwice, Check, RejectedCallerCanOpen;
    if c.windowMs == 1 {
      ShortWindows(c, calls);
    } else if calls == [] {
      NothingIsTight(c);
    } else {
      var past, call := calls[..|calls| - 1], calls[|calls| - 1];
      var now := if past == [] then 0 else past[|past| - 1].now;
      RunsAreTight(c, past);
      CallStaysTight(c, Run(c, past), now, call);
      TightIsNeverTwice(c, Run(c, calls), call.now);
    }
  }

  lemma NothingIsTight(c: Config)
    requires c.overall > 0
    ensures Tight(c, INITIAL, 0) && NeverTwice(c, INITIAL.accepted)
  {
  }

  lemma TightIsNeverTwice(c: Config, s: State, now: nat)
    requires Tight(c, s, now)
    ensures NeverTwice(c, s.accepted)
  {
  }

  lemma CallStaysTight(c: Config, s: State, now: nat, call: Call)
    requires Tight(c, s, now) && now <= call.now && call.now >= c.windowMs && c.windowMs > 1
    requires c.overall > 0 && !RejectedCallerCanOpen(c)
    ensures Tight(c, Check(c, s, call), call.now)
  {
    hide Check, Allowed, RejectedCallerCanOpen, WindowTight, CallersTight, NeverTwice;
    if call.now - s.overall.start >= c.windowMs {
      OpeningIsAccepted(c, s, now, call);
    }
    if Allowed(c, s, call) {
      AcceptedStaysTight(c, s, now, call);
    } else {
      RejectedStaysTight(c, s, now, call);
    }
  }

  // In windows of one millisecond all that is accepted at one time is charged to one window.
  lemma ShortWindows(c: Config, calls: seq<Call>)
    requires c.windowMs == 1 && c.overall > 0 && Monotone(calls)
    ensures NeverTwice(c, Run(c, calls).accepted)
  {
    hide Run, Within;
    forall a: nat
      ensures WindowFrom(c, Run(c, calls).accepted, a) < 2 * c.overall
    {
      OneMillisecond(c, calls, a);
    }
  }

  lemma {:induction false} OneMillisecond(c: Config, calls: seq<Call>, t: nat)
    requires c.windowMs == 1 && Monotone(calls)
    ensures var s := Run(c, calls);
            && s.overall.start <= (if calls == [] then 0 else calls[|calls| - 1].now) && s.overall.count <= c.overall
            && Within(s.accepted, t, t + 1) <= c.overall
            && (t == s.overall.start ==> Within(s.accepted, t, t + 1) == s.overall.count)
            && (t > s.overall.start ==> Within(s.accepted, t, t + 1) == 0)
  {
    hide Within, Set, Evicted, PeerAllowed, NextPeerWindow;
    if calls == [] {
      NothingWithin(t, t + 1);
    } else {
      var n := |calls| - 1;
      OneMillisecond(c, calls[..n], t);
      WithinSnoc(Run(c, calls[..n]).accepted, calls[n].now, t, t + 1);
    }
  }

  // ---- the run that reaches it

  /** One of infinitely many callers, all equally trusted. */
  function Caller(i: nat): PeerId {
    seq(i, _ => 'p')
  }

  function Same(p: PeerId): int { 0 }

  function Request(now: nat, i: nat): Call {
    Call(now, Caller(i), Same)
  }

  /** `n` requests at one time, by callers `from`, `from + 1`, ... */
  function Burst(from: nat, now: nat, n: nat): (calls: seq<Call>)
    ensures forall i :: 0 <= i < |calls| ==> calls[i].now == now
  {
    if n == 0 then [] else Burst(from, now, n - 1) + [Request(now, from + n - 1)]
  }

  /** `n` requests at one time by one caller. */
  function Insist(i: nat, now: nat, n: nat): seq<Call> {
    seq(n, _ => Request(now, i))
  }

  /** The limiter knows none of the callers from `next` on, and has accepted `total` from `a` on. */
  ghost predicate Reached(c: Config, s: State, overall: Window, next: nat, a: nat, total: nat) {
    && s.overall == overall && s.peers.Valid()
    && WindowFrom(c, s.accepted, a) == total
    && forall p :: p in s.peers.entries ==> |p| < next
  }

  lemma OneMore(c: Config, s: State, overall: Window, next: nat, a: nat, total: nat, now: nat)
    requires Reached(c, s, overall, next, a, total)
    requires Rolled(overall, c.windowMs, now).count < c.overall
    ensures var w := Rolled(overall, c.windowMs, now);
            Reached(c, Check(c, s, Request(now, next)), Window(w.start, w.count + 1), next + 1, a,
                    total + if a <= now < a + c.windowMs then 1 else 0)
  {
    hide Within, Lowest;
    WithinSnoc(s.accepted, now, a, a + c.windowMs);
  }

  lemma {:induction false} BurstIsAccepted(c: Config, past: seq<Call>, overall: Window, next: nat, a: nat, total: nat,
                                           now: nat, n: nat)
    requires Reached(c, Run(c, past), overall, next, a, total)
    requires n > 0 && Rolled(overall, c.windowMs, now).count + n <= c.overall
    ensures var w := Rolled(overall, c.windowMs, now);
            Reached(c, Run(c, past + Burst(next, now, n)), Window(w.start, w.count + n), next + n, a,
                    total + if a <= now < a + c.windowMs then n else 0)
    decreases n
  {
    hide Check, Reached, Run;
    var k := n - 1;
    assert past + Burst(next, now, n) == past + Burst(next, now, k) + [Request(now, next + k)];
    RunSnoc(c, past + Burst(next, now, k), Request(now, next + k));
    if k == 0 {
      assert past + Burst(next, now, k) == past;
      OneMore(c, Run(c, past), overall, next, a, total, now);
    } else {
      BurstIsAccepted(c, past, overall, next, a, total, now, k);
      var w := Rolled(overall, c.windowMs, now);
      OneMore(c, Run(c, past + Burst(next, now, k)), Window(w.start, w.count + k), next + k, a,
              total + if a <= now < a + c.windowMs then k else 0, now);
    }
  }

  /** Caller 0 has opened the mesh's window, and caller 1 has since been accepted `j` times. */
  ghost predicate Insisted(c: Config, s: State, j: nat) {
    var w := c.windowMs;
    && s.overall == Window(w, 1 + j) && s.peers.Valid() && |s.peers.order| <= c.maxPeers
    && s.accepted == [w] + Repeat(2 * w - 1, j)
    && (forall p :: p in s.peers.entries ==> |p| < 2)
    && (if j == 0 then Caller(1) !in s.peers.entries
        else Caller(1) in s.peers.entries && s.peers.entries[Caller(1)] == Window(2 * w - 1, j))
  }

  function Repeat(t: nat, n: nat): seq<nat> {
    seq(n, _ => t)
  }

  lemma {:induction false} InsistIsAccepted(c: Config, j: nat)
    requires RejectedCallerCanOpen(c) && j <= PeerBudget(c)
    ensures Insisted(c, Run(c, [Request(c.windowMs, 0)] + Insist(1, 2 * c.windowMs - 1, j)), j)
  {
    hide Check, Insisted, RejectedCallerCanOpen, Run;
    var now := 2 * c.windowMs - 1;
    var first := [Request(c.windowMs, 0)];
    if j == 0 {
      assert first + Insist(1, now, 0) == [] + first;
      RunStart(c);
      RunSnoc(c, [], Request(c.windowMs, 0));
      FirstIsAccepted(c);
    } else {
      InsistIsAccepted(c, j - 1);
      assert first + Insist(1, now, j) == first + Insist(1, now, j - 1) + [Request(now, 1)];
      RunSnoc(c, first + Insist(1, now, j - 1), Request(now, 1));
      OnceMoreIsAccepted(c, Run(c, first + Insist(1, now, j - 1)), j - 1);
    }
  }

  lemma FirstIsAccepted(c: Config)
    requires RejectedCallerCanOpen(c)
    ensures Insisted(c, Check(c, INITIAL, Request(c.windowMs, 0)), 0)
  {
  }

  lemma OnceMoreIsAccepted(c: Config, s: State, j: nat)
    requires RejectedCallerCanOpen(c) && Insisted(c, s, j) && j < PeerBudget(c)
    ensures Insisted(c, Check(c, s, Request(2 * c.windowMs - 1, 1)), j + 1)
  {
    hide Lowest, Set, Evicted;
    var call := Request(2 * c.windowMs - 1, 1);
    SetKeepsBound(s.peers, c.maxPeers, call.peer, NextPeerWindow(c, s, call), call.rank);
    SizeIsOrder(Check(c, s, call).peers);
    assert Rolled(s.overall, c.windowMs, call.now) == s.overall;
    assert Allowed(c, s, call);
    assert [c.windowMs] + Repeat(2 * c.windowMs - 1, j) + [2 * c.windowMs - 1] ==
           [c.windowMs] + Repeat(2 * c.windowMs - 1, j + 1);
  }

  // A caller that has used up its budget opens a new mesh window by being rejected.
  lemma RejectedOpens(c: Config, s: State)
    requires RejectedCallerCanOpen(c) && Insisted(c, s, PeerBudget(c))
    ensures Reached(c, Check(c, s, Request(2 * c.windowMs, 1)), Window(2 * c.windowMs, 0), 2,
                    3 * c.windowMs - 1, 0)
  {
    var call := Request(2 * c.windowMs, 1);
    assert !Allowed(c, s, call);
    RejectionIsFree(c, s, call);
    NoneWithin(s.accepted, 3 * c.windowMs - 1, 4 * c.windowMs - 1);
  }

  lemma {:induction false} NoneWithin(times: seq<nat>, a: nat, b: nat)
    requires forall i :: 0 <= i < |times| ==> times[i] < a
    ensures Within(times, a, b) == 0
  {
    if times != [] {
      NoneWithin(times[..|times| - 1], a, b);
    }
  }

  // A mesh window that starts with nothing charged to it.
  lemma EmptyWindow(c: Config) returns (calls: seq<Call>)
    requires RejectedCallerCanOpen(c)
    ensures RealClock(c, calls) && forall now :: now >= 2 * c.windowMs ==> Until(calls, now)
    ensures Reached(c, Run(c, calls), Window(2 * c.windowMs, 0), 2, 3 * c.windowMs - 1, 0)
  {
    hide Run, Reached, Insisted, Check, RealClock, Until, RejectedCallerCanOpen;
    var w, k := c.windowMs, PeerBudget(c);
    var used := [Request(w, 0)] + Insist(1, 2 * w - 1, k);
    InsistIsAccepted(c, k);
    calls := used + [Request(2 * w, 1)];
    RunSnoc(c, used, Request(2 * w, 1));
    RejectedOpens(c, Run(c, used));
    NoCalls(c);
    ClockGoesOn(c, [], [Request(w, 0)], w);
    assert [] + [Request(w, 0)] == [Request(w, 0)];
    ClockGoesOn(c, [Request(w, 0)], Insist(1, 2 * w - 1, k), 2 * w - 1);
    ClockGoesOn(c, used, [Request(2 * w, 1)], 2 * w);
  }

  lemma NoCalls(c: Config)
    ensures RealClock(c, []) && forall now :: Until([], now)
  {
  }

  lemma TwoBursts(c: Config)
    requires RejectedCallerCanOpen(c)
    ensures TwiceHappens(c)
  {
    hide Run, Within, Reached, RealClock, Until;
    var w, n := c.windowMs, c.overall;
    var a := 3 * w - 1;
    var calls := EmptyWindow(c);
    BurstIsAccepted(c, calls, Window(2 * w, 0), 2, a, 0, a, n);
    ClockGoesOn(c, calls, Burst(2, a, n), a);
    calls := calls + Burst(2, a, n);
    BurstIsAccepted(c, calls, Window(2 * w, n), 2 + n, a, n, 3 * w, n);
    ClockGoesOn(c, calls, Burst(2 + n, 3 * w, n), 3 * w);
    calls := calls + Burst(2 + n, 3 * w, n);
    ReachedTotal(c, Run(c, calls), Window(3 * w, n), 2 + n + n, a, 2 * n);
    assert InOneWindow(c, calls, a) == 2 * n;
  }

  ghost predicate Until(calls: seq<Call>, now: nat) {
    forall i :: 0 <= i < |calls| ==> calls[i].now <= now
  }

  lemma ClockGoesOn(c: Config, past: seq<Call>, more: seq<Call>, now: nat)
    requires RealClock(c, past) && Until(past, now) && now >= c.windowMs
    requires forall i :: 0 <= i < |more| ==> more[i].now == now
    ensures RealClock(c, past + more) && forall later :: later >= now ==> Until(past + more, later)
  {
  }

  lemma ReachedTotal(c: Config, s: State, overall: Window, next: nat, a: nat, total: nat)
    requires Reached(c, s, overall, next, a, total)
    ensures WindowFrom(c, s.accepted, a) == total
  {
  }

  // ---------------------------------------------------------------- the callers' own budgets

  // The same for one caller, while its entry stays: the requests served to it since the entry was made.
  lemma PeerBudgetHolds(c: Config, calls: seq<Call>, p: PeerId, a: nat, b: nat)
    requires Monotone(calls) && a <= b && p in Run(c, calls).served
    ensures Within(Run(c, calls).served[p], a, b) <= PeerBudget(c) * (CeilDiv(b - a, c.windowMs) + 1)
  {
    hide Within, Fits, Run;
    RunsKeep(c, calls);
    BudgetAt(Run(c, calls).served[p], PeerBudget(c), c.windowMs, a, b);
  }

  /** How many requests of a caller are accepted between `a` and `b`, since its entry was made. */
  function ServedWithin(c: Config, calls: seq<Call>, p: PeerId, a: nat, b: nat): nat {
    var served := Run(c, calls).served;
    if p in served then Within(served[p], a, b) else 0
  }

  ghost predicate KeepsToPerPeer(c: Config) {
    forall calls, p, a: nat, b: nat :: RealClock(c, calls) && a <= b ==>
      ServedWithin(c, calls, p, a, b) <= c.perPeer * (CeilDiv(b - a, c.windowMs) + 1)
  }

  // A tracked caller keeps to the configured budget itself, unless that is 0: then it is still served
  // the first request of each window, if anything is served and remembered at all.
  lemma ZeroBudgetServesExactly(c: Config)
    ensures KeepsToPerPeer(c) <==> c.perPeer > 0 || c.overall == 0 || c.maxPeers == 0
  {
    hide Run, Within, CeilDiv;
    if c.perPeer == 0 && c.overall > 0 && c.maxPeers > 0 {
      var calls := [Request(c.windowMs, 0)];
      FirstIsServed(c);
      assert RealClock(c, calls);
      assert !(ServedWithin(c, calls, Caller(0), c.windowMs, c.windowMs + 1) <=
               c.perPeer * (CeilDiv(c.windowMs + 1 - c.windowMs, c.windowMs) + 1));
    } else {
      forall calls, p, a: nat, b: nat | RealClock(c, calls) && a <= b
        ensures ServedWithin(c, calls, p, a, b) <= c.perPeer * (CeilDiv(b - a, c.windowMs) + 1)
      {
        if p in Run(c, calls).served {
          if c.perPeer == 0 { NobodyServed(c, calls); }
          PeerBudgetHolds(c, calls, p, a, b);
        }
      }
    }
  }

  lemma {:induction false} NobodyServed(c: Config, calls: seq<Call>)
    requires c.overall == 0 || c.maxPeers == 0
    ensures Run(c, calls).served == map[]
  {
    hide PeerAllowed, NextPeerWindow, Set, Evicted;
    if calls != [] {
      NobodyServed(c, calls[..|calls| - 1]);
    }
  }

  lemma FirstIsServed(c: Config)
    requires c.overall > 0 && c.maxPeers > 0
    ensures var calls := [Request(c.windowMs, 0)];
            ServedWithin(c, calls, Caller(0), c.windowMs, c.windowMs + 1) == 1
  {
    hide Run, Within;
    RunStart(c);
    RunSnoc(c, [], Request(c.windowMs, 0));
    assert [] + [Request(c.windowMs, 0)] == [Request(c.windowMs, 0)];
    assert [] + [c.windowMs] == [c.windowMs];
    NothingWithin(c.windowMs, c.windowMs + 1);
    WithinSnoc([], c.windowMs, c.windowMs, c.windowMs + 1);
  }

  // ---- over whole runs

  function Callers(calls: seq<Call>): set<PeerId> {
    set i | 0 <= i < |calls| :: calls[i].peer
  }

  /** All requests of a caller that a run accepts. */
  function AcceptedFrom(c: Config, calls: seq<Call>, p: PeerId): seq<nat> {
    if calls == [] then []
    else
      var past, call := calls[..|calls| - 1], calls[|calls| - 1];
      AcceptedFrom(c, past, p) + if call.peer == p && Allowed(c, Run(c, past), call) then [call.now] else []
  }

  // With room for every caller of the run, nothing accepted is ever forgotten.
  lemma {:induction false} RoomMeansNoEviction(c: Config, calls: seq<Call>)
    requires |Callers(calls)| <= c.maxPeers
    ensures var s := Run(c, calls);
            && s.peers.entries.Keys <= Callers(calls)
            && forall p :: AcceptedFrom(c, calls, p) == if p in s.served then s.served[p] else []
  {
    if calls != [] {
      hide Allowed, NextPeerWindow, Lowest;
      var past, call := calls[..|calls| - 1], calls[|calls| - 1];
      SubsetSize(Callers(past), Callers(calls));
      RoomMeansNoEviction(c, past);
      RoomForOne(c, Run(c, past), call, Callers(calls));
    }
  }

  lemma RoomForOne(c: Config, s: State, call: Call, all: set<PeerId>)
    requires s.peers.Valid() && s.peers.entries.Keys + {call.peer} <= all && |all| <= c.maxPeers
    ensures Evicted(s.peers, c.maxPeers, call.peer, call.rank).None? && c.maxPeers > 0
  {
    SubsetSize(s.peers.entries.Keys + {call.peer}, all);
    SizeIsOrder(s.peers);
    if call.peer !in s.peers.entries {
      assert |s.peers.entries.Keys + {call.peer}| == |s.peers.entries| + 1;
    }
  }

  predicate Kept(c: Config, calls: seq<Call>, p: PeerId, a: nat, b: nat)
    requires a <= b
  {
    Within(AcceptedFrom(c, calls, p), a, b) <= c.perPeer * (CeilDiv(b - a, c.windowMs) + 1)
  }

  /** The per-caller layer alone: whatever the mesh's budget, in runs over at most `n` callers. */
  ghost predicate EachKeepsToPerPeer(l: Config, n: nat) {
    forall c: Config, calls, p, a: nat, b: nat ::
      c == l.(overall := c.overall) && RealClock(c, calls) && |Callers(calls)| <= n && a <= b ==>
        Kept(c, calls, p, a, b)
  }

  // Over whole runs, with everything eviction forgets: no caller exceeds its budget if the map has room
  // for all of them; and with one caller more than room, or no budget at all, there is a run in which
  // one does.
  lemma PerPeerExactlyUpToMax(l: Config, n: nat)
    ensures EachKeepsToPerPeer(l, n) <==> n == 0 || (l.perPeer > 0 && n <= l.maxPeers)
  {
    hide Kept, AcceptedFrom;
    if n == 0 || (l.perPeer > 0 && n <= l.maxPeers) {
      forall c: Config, calls, p, a: nat, b: nat |
        c == l.(overall := c.overall) && RealClock(c, calls) && |Callers(calls)| <= n && a <= b
        ensures Kept(c, calls, p, a, b)
      {
        RoomKeeps(c, calls, p, a, b);
      }
    } else {
      var c, calls, p := OneExceeds(l);
      assert !Kept(c, calls, p, l.windowMs, l.windowMs + 1);
    }
  }

  lemma RoomKeeps(c: Config, calls: seq<Call>, p: PeerId, a: nat, b: nat)
    requires RealClock(c, calls) && a <= b && |Callers(calls)| <= c.maxPeers
    requires Callers(calls) == {} || c.perPeer > 0
    ensures Kept(c, calls, p, a, b)
  {
    hide Run, CeilDiv;
    RoomMeansNoEviction(c, calls);
    if calls == [] {
      NothingWithin(a, b);
    } else {
      assert calls[0].peer in Callers(calls);
      if p in Run(c, calls).served {
        PeerBudgetHolds(c, calls, p, a, b);
      } else {
        NothingWithin(a, b);
      }
    }
  }

  // ---- the run in which a caller exceeds its budget

  /** Whom a full map gives up: this caller is the least trusted. */
  function Least(p: PeerId): PeerId -> int {
    q => if q == p then 0 else 1
  }

  lemma LeastIsLowest(order: seq<PeerId>, p: PeerId)
    requires p in order
    ensures order[Lowest(order, Least(p))] == p
  {
    var k :| 0 <= k < |order| && order[k] == p;
    LowestIsLowest(order, Least(p), k);
  }

  function CallersUpTo(n: nat): set<PeerId> {
    if n == 0 then {Caller(0)} else CallersUpTo(n - 1) + {Caller(n)}
  }

  lemma {:induction false} CallersUpToSize(n: nat)
    ensures |CallersUpTo(n)| <= n + 1 && forall i: nat :: i <= n ==> Caller(i) in CallersUpTo(n)
  {
    if n > 0 {
      CallersUpToSize(n - 1);
    }
  }

  /** All these calls come in the same millisecond, from callers 0 to `maxPeers`. */
  ghost predicate AtOnce(c: Config, calls: seq<Call>) {
    forall i :: 0 <= i < |calls| ==> calls[i].now == c.windowMs && calls[i].peer in CallersUpTo(c.maxPeers)
  }

  /** After `x` accepted calls, `y` of them of caller 0, what the map holds. */
  ghost predicate Stage(c: Config, calls: seq<Call>, x: nat, y: nat) {
    && AtOnce(c, calls) && AcceptedFrom(c, calls, Caller(0)) == Repeat(c.windowMs, y)
    && var s := Run(c, calls);
       Rolled(s.overall, c.windowMs, c.windowMs) == Window(c.windowMs, x) && |s.peers.order| <= c.maxPeers
  }

  /** A full map that holds the one caller, with this count, and not the other. */
  ghost predicate Holds(c: Config, s: State, here: PeerId, count: nat, gone: PeerId) {
    && |s.peers.order| == c.maxPeers && gone !in s.peers.entries
    && here in s.peers.entries && s.peers.entries[here] == Window(c.windowMs, count)
  }

  lemma Ask(c: Config, past: seq<Call>, x: nat, y: nat, call: Call) returns (calls: seq<Call>)
    requires Stage(c, past, x, y) && x < c.overall && PeerAllowed(c, Run(c, past), call)
    requires call.now == c.windowMs && call.peer in CallersUpTo(c.maxPeers)
    ensures Stage(c, calls, x + 1, if call.peer == Caller(0) then y + 1 else y)
    ensures calls == past + [call]
    ensures var s := Run(c, past);
            Run(c, calls).peers == Set(s.peers, c.maxPeers, call.peer, NextPeerWindow(c, s, call), call.rank)
  {
    hide Run, Set, PeerAllowed, NextPeerWindow, CallersUpTo;
    var s := Run(c, past);
    calls := past + [call];
    RunSnoc(c, past, call);
    AcceptedSnoc(c, past, call, Caller(0));
    assert Repeat(c.windowMs, y) + [c.windowMs] == Repeat(c.windowMs, y + 1);
    SetKeepsBound(s.peers, c.maxPeers, call.peer, NextPeerWindow(c, s, call), call.rank);
    SizeIsOrder(Run(c, calls).peers);
  }

  lemma AcceptedSnoc(c: Config, past: seq<Call>, call: Call, p: PeerId)
    ensures AcceptedFrom(c, past + [call], p) ==
            AcceptedFrom(c, past, p) + if call.peer == p && Allowed(c, Run(c, past), call) then [call.now] else []
  {
    assert (past + [call])[..|past|] == past;
  }

  // A caller the map does not hold comes in, and the given one goes.
  lemma Displace(c: Config, past: seq<Call>, x: nat, y: nat, comes: PeerId, goes: PeerId, count: nat)
    returns (calls: seq<Call>)
    requires Stage(c, past, x, y) && x < c.overall && comes in CallersUpTo(c.maxPeers)
    requires Holds(c, Run(c, past), goes, count, comes)
    ensures Stage(c, calls, x + 1, if comes == Caller(0) then y + 1 else y)
    ensures Holds(c, Run(c, calls), comes, 1, goes)
  {
    hide Run, Stage, CallersUpTo, Lowest;
    var s, call := Run(c, past), Call(c.windowMs, comes, Least(goes));
    calls := Ask(c, past, x, y, call);
    LeastIsLowest(s.peers.order, goes);
  }

  // A caller the map holds asks until its budget is used up.
  lemma {:induction false} AskAll(c: Config, past: seq<Call>, x: nat, y: nat, count: nat, gone: PeerId)
    returns (calls: seq<Call>)
    requires Stage(c, past, x, y) && 1 <= count <= c.perPeer && x + c.perPeer - count <= c.overall
    requires Holds(c, Run(c, past), Caller(0), count, gone)
    ensures Stage(c, calls, x + c.perPeer - count, y + c.perPeer - count)
    ensures Holds(c, Run(c, calls), Caller(0), c.perPeer, gone)
    decreases c.perPeer - count
  {
    hide Run, Stage, CallersUpTo, Lowest;
    calls := past;
    if count < c.perPeer {
      CallersUpToSize(c.maxPeers);
      calls := Ask(c, past, x, y, Request(c.windowMs, 0));
      calls := AskAll(c, calls, x + 1, y + 1, count + 1, gone);
    }
  }

  // Caller 0 uses up its budget, and is then displaced by caller 1.
  lemma Round(c: Config, past: seq<Call>, x: nat, y: nat) returns (calls: seq<Call>)
    requires Stage(c, past, x, y) && x + c.perPeer + 1 <= c.overall && c.perPeer > 0 && c.maxPeers > 0
    requires Holds(c, Run(c, past), Caller(1), 1, Caller(0))
    ensures Stage(c, calls, x + c.perPeer + 1, y + c.perPeer)
    ensures Holds(c, Run(c, calls), Caller(1), 1, Caller(0))
  {
    hide Run, Stage, Holds, CallersUpTo;
    CallersUpToSize(c.maxPeers);
    calls := Displace(c, past, x, y, Caller(0), Caller(1), 1);
    calls := AskAll(c, calls, x + 1, y + 1, 1, Caller(1));
    calls := Displace(c, calls, x + c.perPeer, y + c.perPeer, Caller(1), Caller(0), c.perPeer);
  }

  lemma NoneAsked(c: Config)
    ensures Stage(c, [], 0, 0)
  {
  }

  // Callers n, n - 1, ..., 1 fill the map.
  lemma {:induction false} Fill(c: Config, n: nat) returns (calls: seq<Call>)
    requires 0 < n <= c.maxPeers <= c.overall
    ensures Stage(c, calls, n, 0) && |Run(c, calls).peers.order| == n
    ensures forall p :: p in Run(c, calls).peers.entries ==> c.maxPeers - n < |p|
    ensures var first := Caller(c.maxPeers - n + 1);
            var entries := Run(c, calls).peers.entries; first in entries && entries[first] == Window(c.windowMs, 1)
  {
    hide Run, Stage, CallersUpTo, Lowest;
    var i := c.maxPeers - n + 1;
    calls := [];
    if n == 1 {
      NoneAsked(c);
      RunStart(c);
    } else {
      calls := Fill(c, n - 1);
    }
    CallersUpToSize(c.maxPeers);
    assert Caller(i) !in Run(c, calls).peers.entries;
    calls := Ask(c, calls, n - 1, 0, Request(c.windowMs, i));
  }

  lemma {:induction false} AskForgotten(c: Config, n: nat) returns (calls: seq<Call>)
    requires c.maxPeers == 0 && n <= c.overall
    ensures Stage(c, calls, n, n)
  {
    hide Run, Stage, CallersUpTo, Lowest;
    calls := [];
    if n == 0 {
      NoneAsked(c);
    } else {
      calls := AskForgotten(c, n - 1);
      CallersUpToSize(c.maxPeers);
      NothingHeld(c, calls, n - 1);
      calls := Ask(c, calls, n - 1, n - 1, Request(c.windowMs, 0));
    }
  }

  lemma NothingHeld(c: Config, calls: seq<Call>, n: nat)
    requires c.maxPeers == 0 && Stage(c, calls, n, n)
    ensures Run(c, calls).peers.entries == map[]
  {
    hide Run;
    SizeIsOrder(Run(c, calls).peers);
  }

  lemma FullHolds(c: Config, s: State)
    requires |s.peers.order| == c.maxPeers && forall p :: p in s.peers.entries ==> 0 < |p|
    requires Caller(1) in s.peers.entries && s.peers.entries[Caller(1)] == Window(c.windowMs, 1)
    ensures Holds(c, s, Caller(1), 1, Caller(0))
  {
  }

  lemma OneExceeds(l: Config) returns (c: Config, calls: seq<Call>, p: PeerId)
    ensures c == l.(overall := c.overall) && RealClock(c, calls)
    ensures |Callers(calls)| <= if l.perPeer == 0 then 1 else l.maxPeers + 1
    ensures !Kept(c, calls, p, l.windowMs, l.windowMs + 1)
  {
    hide Run, Stage, Holds;
    p := Caller(0);
    if l.perPeer == 0 {
      c := l.(overall := 1);
      NoneAsked(c);
      RunStart(c);
      CallersUpToSize(c.maxPeers);
      calls := Ask(c, [], 0, 0, Request(c.windowMs, 0));
      assert calls == [Request(c.windowMs, 0)] && Callers(calls) == {calls[0].peer};
      Exceeds(c, calls, 1, 1);
    } else if l.maxPeers == 0 {
      c := l.(overall := 3 * l.perPeer);
      calls := AskForgotten(c, 3 * c.perPeer);
      Exceeds(c, calls, 3 * c.perPeer, 3 * c.perPeer);
    } else {
      c := l.(overall := l.maxPeers + 3 * (l.perPeer + 1));
      calls := Fill(c, c.maxPeers);
      FullHolds(c, Run(c, calls));
      calls := Round(c, calls, c.maxPeers, 0);
      calls := Round(c, calls, c.maxPeers + c.perPeer + 1, c.perPeer);
      calls := Round(c, calls, c.maxPeers + 2 * (c.perPeer + 1), 2 * c.perPeer);
      Exceeds(c, calls, c.maxPeers + 3 * (c.perPeer + 1), 3 * c.perPeer);
    }
  }

  lemma Exceeds(c: Config, calls: seq<Call>, x: nat, y: nat)
    requires Stage(c, calls, x, y) && y > 2 * c.perPeer
    ensures RealClock(c, calls) && |Callers(calls)| <= c.maxPeers + 1
    ensures !Kept(c, calls, Caller(0), c.windowMs, c.windowMs + 1)
  {
    hide Run, AcceptedFrom;
    CallersUpToSize(c.maxPeers);
    SubsetSize(Callers(calls), CallersUpTo(c.maxPeers));
    AllWithin(c.windowMs, y);
    assert CeilDiv(1, c.windowMs) == 1;
  }

  lemma {:induction false} AllWithin(t: nat, n: nat)
    ensures Within(Repeat(t, n), t, t + 1) == n
  {
    if n > 0 {
      AllWithin(t, n - 1);
      assert Repeat(t, n) == Repeat(t, n - 1) + [t];
      WithinSnoc(Repeat(t, n - 1), t, t, t + 1);
    }
  }

  // ---------------------------------------------------------------- the gateways' limiter

  class Limiter {
    const config: Config
    var globalRateLimitState: Window
    const rateLimitState: BoundedFifoMap<PeerId, Window>
    ghost var accepted: seq<nat>
    ghost var served: map<PeerId, seq<nat>>
    ghost var calls: seq<Call>

    ghost function Now(): State
      reads this, rateLimitState
    {
      State(globalRateLimitState, rateLimitState.contents, accepted, served)
    }

    ghost predicate Valid()
      reads this, rateLimitState
    {
      rateLimitState.Valid() && rateLimitState.maxSize == config.maxPeers && Now() == Run(config, calls)
    }

    constructor (config: Config)
      ensures Valid() && this.config == config && calls == [] && fresh(rateLimitState)
    {
      this.config := config;
      globalRateLimitState := Window(0, 0);
      rateLimitState := new BoundedFifoMap(config.maxPeers);
      accepted, served, calls := [], map[], [];
    }

    /** `checkRateLimit`: false where the original throws. */
    method CheckRateLimit(now: nat, peerId: PeerId, rank: PeerId -> int) returns (ok: bool)
      requires Valid()
      modifies this, rateLimitState
      ensures Valid() && calls == old(calls) + [Call(now, peerId, rank)]
      ensures ok <==> Allowed(config, old(Now()), Call(now, peerId, rank))
    {
      hide Run, Lowest, Evicted, Set;
      ghost var s := Now();
      ghost var call := Call(now, peerId, rank);
      RunSnoc(config, calls, call);
      calls := calls + [call];
      if now - globalRateLimitState.start >= config.windowMs {
        globalRateLimitState := Window(now, 0);
      }
      if globalRateLimitState.count >= config.overall { return false; }
      var entry := rateLimitState.Get(peerId);
      var next: Window;
      if entry.None? || now - entry.value.start >= config.windowMs {
        next := Window(now, 1);
      } else {
        if entry.value.count >= config.perPeer { return false; }
        next := entry.value.(count := entry.value.count + 1);
      }
      assert next == NextPeerWindow(config, s, call);
      var evicted := rateLimitState.Put(peerId, next, rank);
      globalRateLimitState := globalRateLimitState.(count := globalRateLimitState.count + 1);
      Remember(s, call);
      ok := true;
    }

    ghost method Remember(s: State, call: Call)
      modifies `accepted, `served
      ensures s.peers.Valid() && Allowed(config, s, call) ==>
                accepted == Check(config, s, call).accepted && served == Check(config, s, call).served
    {
      if s.peers.Valid() {
        accepted := Check(config, s, call).accepted;
        served := Check(config, s, call).served;
      }
    }
  }

  lemma RunSnoc(c: Config, calls: seq<Call>, call: Call)
    ensures Run(c, calls + [call]) == Check(c, Run(c, calls), call)
  {
    assert (calls + [call])[..|calls|] == calls;
  }
}
