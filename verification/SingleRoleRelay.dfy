/**
 * The relay client that only connects outwards: the same session discipline as the two-role client,
 * with a scan that is re-issued, identity-guarded disconnect callbacks, and two places where a native
 * disconnect is issued too late.
 */
module SingleRoleRelay {
  import opened ConnectionTables
  import opened Wrappers

  datatype Attempt =
    | Connecting | Subscribing
    | AwaitingHello
    | Known | Failed  // the HELLO promise is settled, its continuation queued

  /** What a call of `deactivateRelay` waits for; `rest` are the devices still to be let go. */
  datatype Teardown = StoppingScan | Unsubscribing(rest: seq<DeviceId>) | Disconnecting(rest: seq<DeviceId>)

  datatype Session = Session(
    active: bool,       // relayActive
    id: nat,            // relaySessionId
    owner: nat,         // the session whose activation made the connection table
    seen: Option<nat>,  // seenCache: null, or the session that made it
    scan: Option<nat>,  // the session whose callback the radio's scan reports to
    heard: set<nat>)    // the sessions that ever registered one
  {
    predicate Live() {
      owner == id && seen.Some?
    }
  }

  datatype Peers = Peers(
    table: Table,                // connections
    names: map<Conn, NodeId>,    // peerNodeId of the records that have one
    armed: set<Conn>,            // records whose identifyResolvers are set
    made: nat,
    attempts: map<Conn, Attempt>,
    subscribed: set<Conn>,       // records whose attempt has registered a notification callback
    cleaning: map<Conn, nat>,    // cleanups that await stopNotifications, and the records made before each
    severed: Option<DeviceId>)   // the device the last step told the radio to disconnect

  datatype Waiting = Waiting(
    activating: set<nat>,         // activations awaiting initialize()
    scans: multiset<nat>,         // issueScan calls awaiting stopLEScan(), by session
    arming: set<nat>,             // activations awaiting their issueScan, which then set their interval
    teardowns: map<nat, Teardown>)

  datatype Timers = Timers(
    refresh: Option<nat>,  // scanRefreshTimer: null, or the handle of the interval this session set
    intervals: set<nat>)   // the running intervals, by session

  datatype World = World(session: Session, peers: Peers, waiting: Waiting, timers: Timers)

  const START := World(Session(false, 0, 0, None, None, {}), Peers([], map[], {}, 0, map[], {}, map[], None),
                       Waiting({}, multiset{}, {}, map[]), Timers(None, {}))

  datatype Turn =
    | TurnOn
    | Initialized(session: nat, ok: bool)
    | RefreshScan(session: nat)                   // the interval of a session fires
    | ScanStopped(session: nat, started: bool)    // issueScan goes on; the new scan may fail to start
    | IntervalSet(session: nat)                   // activateRelay goes on after its issueScan
    | TurnOff(plugin: bool)
    | TeardownResumes(token: nat)
    | ScanResult(session: nat, device: DeviceId)
    | Dropped(conn: Conn)                         // the disconnect callback given to connect()
    | Hello(via: Conn, peer: NodeId)              // through the notification callback of that record's attempt
    | AttemptResumes(conn: Conn, ok: bool)
    | HelloFails(conn: Conn)
    | CleanupResumes(conn: Conn)

  // ---------------------------------------------------------------- steps

  function DoTurnOn(w: World): World {
    var n := w.session.id + 1;
    w.(session := w.session.(active := true, id := n, owner := n, seen := Some(n)), peers := w.peers.(table := []),
       waiting := w.waiting.(activating := w.waiting.activating + {n}))
  }

  function IssueScan(w: World, n: nat): World {
    w.(session := w.session.(scan := None), waiting := w.waiting.(scans := w.waiting.scans + multiset{n}))
  }

  function DoInitialized(w: World, n: nat, ok: bool): World {
    var done := w.(waiting := w.waiting.(activating := w.waiting.activating - {n}));
    if !ok then done.(session := w.session.(active := w.session.active && n != w.session.id))
    else if n != w.session.id then done
    else IssueScan(done.(waiting := done.waiting.(arming := done.waiting.arming + {n})), n)
  }

  predicate Arms(w: World, n: nat) {
    n in w.waiting.arming && n !in w.waiting.scans
  }

  /** The handle is stored without a look at the session. */
  function DoIntervalSet(w: World, n: nat): World {
    w.(timers := Timers(Some(n), w.timers.intervals + {n}),
       waiting := w.waiting.(arming := w.waiting.arming - {n}))
  }

  function ClearedTimers(t: Timers): Timers {
    if t.refresh.Some? then Timers(None, t.intervals - {t.refresh.value}) else t
  }

  function DoScanStopped(w: World, n: nat, started: bool): World {
    w.(session := if n == w.session.id && started then w.session.(scan := Some(n), heard := w.session.heard + {n})
                  else w.session,
       waiting := w.waiting.(scans := w.waiting.scans - multiset{n}))
  }

  function LetGo(w: World): World {
    w.(session := w.session.(seen := None), peers := w.peers.(table := []))
  }

  function DoTurnOff(w: World, plugin: bool): World {
    var n := w.session.id + 1;
    var off := w.(session := w.session.(active := false, id := n), timers := ClearedTimers(w.timers));
    if plugin then off.(session := off.session.(scan := None),
                        waiting := w.waiting.(teardowns := w.waiting.teardowns[n := StoppingScan]))
    else LetGo(off)
  }

  function Devices(t: Table): seq<DeviceId> {
    if t == [] then [] else [t[0].device] + Devices(t[1..])
  }

  function NextDevice(w: World, token: nat, rest: seq<DeviceId>): World {
    if rest != [] then w.(waiting := w.waiting.(teardowns := w.waiting.teardowns[token := Unsubscribing(rest)]))
    else
      var done := w.(waiting := w.waiting.(teardowns := w.waiting.teardowns - {token}));
      if token == w.session.id then LetGo(done) else done
  }

  function DoTeardown(w: World, token: nat): World
    requires token in w.waiting.teardowns
  {
    match w.waiting.teardowns[token]
    case StoppingScan => NextDevice(w, token, Devices(w.peers.table))
    case Unsubscribing(rest) =>
      if rest == [] then w
      else w.(peers := w.peers.(severed := Some(rest[0])),
              waiting := w.waiting.(teardowns := w.waiting.teardowns[token := Disconnecting(rest[1..])]))
    case Disconnecting(rest) => NextDevice(w, token, rest)
  }

  function DoScanResult(s: Session, p: Peers, n: nat, d: DeviceId): Peers {
    if n !in s.heard || !s.active || n != s.id || Find(p.table, d).Some? || |p.table| >= MAX_CONNECTIONS then p
    else
      var c := Conn(p.made, d, Outbound, n);
      p.(table := p.table + [c], made := p.made + 1, attempts := p.attempts[c := Connecting])
  }

  function DoDropped(p: Peers, c: Conn): Peers {
    if c in p.table then p.(table := Minus(p.table, c)) else p
  }

  /** The callback knows its device and nothing else: it takes whatever record holds the device's slot. */
  function DoHello(p: Peers, via: Conn, peer: NodeId): Peers {
    var found := Find(p.table, via.device);
    if via !in p.subscribed || found.None? || found.value in p.names || found.value !in p.armed then p
    else
      p.(names := p.names[found.value := peer], armed := p.armed - {found.value},
         attempts := p.attempts[found.value := Known])
  }

  /** `cleanupConnection` up to its first await. */
  function StartCleanup(p: Peers, c: Conn): Peers {
    var ended := p.(attempts := p.attempts - {c});
    if c !in p.table then ended else ended.(table := Minus(p.table, c), cleaning := p.cleaning[c := p.made])
  }

  function DoAttempt(s: Session, p: Peers, c: Conn, ok: bool): Peers
    requires c in p.attempts
  {
    match p.attempts[c]
    case AwaitingHello => p  // only its HELLO, its timer or its failed send wakes it
    case Failed => StartCleanup(p, c)
    case at =>
      if (!ok && at != Known) || c.session != s.id then StartCleanup(p, c)
      else
        match at
        case Connecting => p.(attempts := p.attempts[c := Subscribing], subscribed := p.subscribed + {c})
        case Subscribing => p.(attempts := p.attempts[c := AwaitingHello], armed := p.armed + {c})
        case _ => p.(attempts := p.attempts - {c})
  }

  function DoHelloFails(p: Peers, c: Conn): Peers {
    if c in p.attempts && p.attempts[c] == AwaitingHello then
      p.(attempts := p.attempts[c := Failed], armed := p.armed - {c})
    else p
  }

  function DoCleanup(p: Peers, c: Conn): Peers {
    if c in p.cleaning then p.(cleaning := p.cleaning - {c}, severed := Some(c.device)) else p
  }

  function OnPeers(s: Session, p: Peers, t: Turn): Peers {
    match t
    case ScanResult(n, d) => DoScanResult(s, p, n, d)
    case Dropped(c) => DoDropped(p, c)
    case Hello(via, peer) => DoHello(p, via, peer)
    case AttemptResumes(c, ok) => if c in p.attempts then DoAttempt(s, p, c, ok) else p
    case HelloFails(c) => DoHelloFails(p, c)
    case CleanupResumes(c) => DoCleanup(p, c)
    case _ => p
  }

  function Apply(w: World, t: Turn): World {
    match t
    case TurnOn => DoTurnOn(w)
    case Initialized(n, ok) => if n in w.waiting.activating then DoInitialized(w, n, ok) else w
    case RefreshScan(n) =>
      if n in w.timers.intervals && w.session.active && n == w.session.id then IssueScan(w, n) else w
    case ScanStopped(n, started) => if n in w.waiting.scans then DoScanStopped(w, n, started) else w
    case IntervalSet(n) => if Arms(w, n) then DoIntervalSet(w, n) else w
    case TurnOff(plugin) => DoTurnOff(w, plugin)
    case TeardownResumes(n) => if n in w.waiting.teardowns then DoTeardown(w, n) else w
    case _ => w.(peers := OnPeers(w.session, w.peers, t))
  }

  function Step(w: World, t: Turn): World {
    Apply(w.(peers := w.peers.(severed := None)), t)
  }

  function Run(turns: seq<Turn>): World {
    if turns == [] then START else Step(Run(turns[..|turns| - 1]), turns[|turns| - 1])
  }

  // ---------------------------------------------------------------- the invariant

  ghost predicate OwnerOk(s: Session, t: Table) {
    && s.owner <= s.id
    && (if s.seen.Some? then s.seen.value == s.owner else t == [])
    && (s.active ==> s.Live())
    && (s.scan.Some? ==> s.scan.value <= s.id)
  }

  ghost predicate TableOk(t: Table) {
    DistinctDevices(t) && |t| <= MAX_CONNECTIONS
  }

  ghost predicate RecordsOk(s: Session, p: Peers) {
    && (forall c :: c in p.table ==> c.id < p.made && c.session == s.owner)
    && (forall c :: c in p.armed ==> c.id < p.made)
    && (forall c :: c in p.attempts ==>
          c.id < p.made && c.session <= s.id && (c.session == s.id ==> s.Live()))
    && (forall c :: c in p.subscribed || c in p.names ==> c.id < p.made)
  }

  ghost predicate HellosOk(p: Peers) {
    && (forall c :: c in p.armed ==> c in p.attempts && p.attempts[c] == AwaitingHello)
    && (forall c :: c in p.attempts && p.attempts[c] == Known ==> c in p.names)
  }

  /** A record that now holds the slot of a device still being cleaned up was made after the cleanup began. */
  ghost predicate CleaningOk(p: Peers) {
    && (forall c :: c in p.cleaning ==> c.id < p.cleaning[c] <= p.made)
    && (forall c, x :: c in p.cleaning && x in p.table && x.device == c.device ==> p.cleaning[c] <= x.id)
  }

  ghost predicate SlotsOk(p: Peers) {
    forall c :: c in p.table && c !in p.names ==> c in p.attempts
  }

  ghost predicate WaitingOk(s: Session, v: Waiting) {
    && (forall n :: n in v.activating || n in v.scans || n in v.teardowns ==> n <= s.id)
    && (s.id in v.teardowns ==> !s.Live())
    && (s.id in v.activating || s.id in v.scans ==> s.Live())
  }

  ghost predicate PeersInv(s: Session, p: Peers) {
    && OwnerOk(s, p.table) && TableOk(p.table) && RecordsOk(s, p) && HellosOk(p) && CleaningOk(p)
    && (s.Live() ==> SlotsOk(p))
  }

  ghost predicate Inv(w: World) {
    PeersInv(w.session, w.peers) && WaitingOk(w.session, w.waiting)
  }

  lemma ScanResultKeeps(s: Session, p: Peers, n: nat, d: DeviceId)
    requires PeersInv(s, p)
    ensures PeersInv(s, DoScanResult(s, p, n, d))
  {
  }

  lemma RemovalKeeps(s: Session, p: Peers, c: Conn)
    requires PeersInv(s, p)
    ensures PeersInv(s, p.(table := Minus(p.table, c))) && c !in Minus(p.table, c)
  {
    hide DistinctDevices, Minus;
    MinusIsDistinct(p.table, c);
    MinusIsShorter(p.table, c);
  }

  lemma {:induction false} MinusIsShorter(t: Table, c: Conn)
    ensures |Minus(t, c)| <= |t|
  {
    if t != [] {
      MinusIsShorter(t[1..], c);
    }
  }

  lemma HelloKeeps(s: Session, p: Peers, via: Conn, peer: NodeId)
    requires PeersInv(s, p)
    ensures PeersInv(s, DoHello(p, via, peer))
  {
    hide OwnerOk, TableOk;
  }

  lemma CleanupKeeps(s: Session, p: Peers, c: Conn)
    requires PeersInv(s, p) && c in p.attempts && p.attempts[c] != AwaitingHello
    ensures PeersInv(s, StartCleanup(p, c))
  {
    hide PeersInv;
    if c in p.table {
      var left := p.(table := Minus(p.table, c));
      RemovalKeeps(s, p, c);
      SlotIsFree(s, p, c);
      AttemptEnds(s, left, c);
      CleanupBegins(s, left.(attempts := left.attempts - {c}), c);
    } else {
      AttemptEnds(s, p, c);
    }
  }

  lemma SlotIsFree(s: Session, p: Peers, c: Conn)
    requires PeersInv(s, p) && c in p.table
    ensures Find(Minus(p.table, c), c.device).None?
  {
    hide Find, Minus;
    NoTwin(p.table, c);
  }

  lemma AttemptEnds(s: Session, p: Peers, c: Conn)
    requires PeersInv(s, p) && c in p.attempts && p.attempts[c] != AwaitingHello && c !in p.table
    ensures PeersInv(s, p.(attempts := p.attempts - {c})) && c.id < p.made
  {
    hide OwnerOk, TableOk;
  }

  lemma CleanupBegins(s: Session, p: Peers, c: Conn)
    requires PeersInv(s, p) && c.id < p.made && Find(p.table, c.device).None?
    ensures PeersInv(s, p.(cleaning := p.cleaning[c := p.made]))
  {
    hide OwnerOk, TableOk;
  }

  lemma HelloFailsKeeps(s: Session, p: Peers, c: Conn)
    requires PeersInv(s, p)
    ensures PeersInv(s, DoHelloFails(p, c))
  {
    hide OwnerOk, TableOk;
  }

  lemma CleanupEndsKeeps(s: Session, p: Peers, c: Conn)
    requires PeersInv(s, p)
    ensures PeersInv(s, DoCleanup(p, c))
  {
    hide OwnerOk, TableOk;
  }

  lemma SubscribeKeeps(s: Session, p: Peers, c: Conn)
    requires PeersInv(s, p) && c in p.attempts && p.attempts[c] == Connecting
    ensures PeersInv(s, p.(attempts := p.attempts[c := Subscribing], subscribed := p.subscribed + {c}))
  {
    hide OwnerOk, TableOk;
  }

  lemma AwaitHelloKeeps(s: Session, p: Peers, c: Conn)
    requires PeersInv(s, p) && c in p.attempts && p.attempts[c] == Subscribing
    ensures PeersInv(s, p.(attempts := p.attempts[c := AwaitingHello], armed := p.armed + {c}))
  {
    hide OwnerOk, TableOk;
  }

  lemma KnownKeeps(s: Session, p: Peers, c: Conn)
    requires PeersInv(s, p) && c in p.attempts && p.attempts[c] == Known
    ensures PeersInv(s, p.(attempts := p.attempts - {c}))
  {
    hide OwnerOk, TableOk;
  }

  lemma AttemptKeeps(s: Session, p: Peers, c: Conn, ok: bool)
    requires PeersInv(s, p) && c in p.attempts
    ensures PeersInv(s, DoAttempt(s, p, c, ok))
  {
    hide PeersInv, StartCleanup;
    match p.attempts[c] {
      case Connecting => SubscribeKeeps(s, p, c);
      case Subscribing => AwaitHelloKeeps(s, p, c);
      case Known => KnownKeeps(s, p, c);
      case AwaitingHello =>
      case Failed =>
    }
    if p.attempts[c] != AwaitingHello {
      CleanupKeeps(s, p, c);
    }
  }

  lemma OnPeersKeeps(s: Session, p: Peers, t: Turn)
    requires PeersInv(s, p)
    ensures PeersInv(s, OnPeers(s, p, t))
  {
    hide PeersInv, DoScanResult, DoHello, DoAttempt, DoHelloFails, DoCleanup;
    match t {
      case ScanResult(n, d) => ScanResultKeeps(s, p, n, d);
      case Dropped(c) => RemovalKeeps(s, p, c);
      case Hello(via, peer) => HelloKeeps(s, p, via, peer);
      case AttemptResumes(c, ok) => if c in p.attempts { AttemptKeeps(s, p, c, ok); }
      case HelloFails(c) => HelloFailsKeeps(s, p, c);
      case CleanupResumes(c) => CleanupEndsKeeps(s, p, c);
      case _ =>
    }
  }

  lemma EmptyIsOk()
    ensures TableOk([])
  {
  }

  lemma NextDeviceKeeps(w: World, token: nat, rest: seq<DeviceId>)
    requires Inv(w) && token in w.waiting.teardowns
    ensures Inv(NextDevice(w, token, rest))
  {
    hide TableOk, SlotsOk;
    EmptyIsOk();
  }

  lemma TeardownKeeps(w: World, token: nat)
    requires Inv(w) && token in w.waiting.teardowns
    ensures Inv(DoTeardown(w, token))
  {
    hide TableOk, OwnerOk, NextDevice, Devices;
    match w.waiting.teardowns[token] {
      case StoppingScan => NextDeviceKeeps(w, token, Devices(w.peers.table));
      case Unsubscribing(rest) =>
      case Disconnecting(rest) => NextDeviceKeeps(w, token, rest);
    }
  }

  lemma TurnOnKeeps(w: World)
    requires Inv(w)
    ensures Inv(DoTurnOn(w))
  {
    hide TableOk;
    EmptyIsOk();
  }

  lemma TurnOffKeeps(w: World, plugin: bool)
    requires Inv(w)
    ensures Inv(DoTurnOff(w, plugin))
  {
    hide TableOk, SlotsOk;
    EmptyIsOk();
    EmptySlots(w.peers);
  }

  lemma IssueScanKeeps(w: World, n: nat)
    requires Inv(w) && n == w.session.id && w.session.Live()
    ensures Inv(IssueScan(w, n))
  {
    hide TableOk, SlotsOk, HellosOk;
  }

  lemma InitializedKeeps(w: World, n: nat, ok: bool)
    requires Inv(w) && n in w.waiting.activating
    ensures Inv(DoInitialized(w, n, ok))
  {
    hide TableOk, SlotsOk, HellosOk, IssueScan;
    if n == w.session.id {
      IssueScanKeeps(w.(waiting := w.waiting.(activating := w.waiting.activating - {n},
                                              arming := w.waiting.arming + {n})), n);
    }
  }

  lemma ScanStoppedKeeps(w: World, n: nat, started: bool)
    requires Inv(w) && n in w.waiting.scans
    ensures Inv(DoScanStopped(w, n, started))
  {
    hide TableOk, SlotsOk, HellosOk;
  }

  lemma RefreshKeeps(w: World, n: nat)
    requires Inv(w)
    ensures Inv(Apply(w, RefreshScan(n)))
  {
    hide IssueScan, TableOk, RecordsOk, HellosOk, SlotsOk, WaitingOk;
    if w.session.active && n == w.session.id {
      IssueScanKeeps(w, n);
    }
  }

  lemma IntervalSetKeeps(w: World, n: nat)
    requires Inv(w)
    ensures Inv(Apply(w, IntervalSet(n)))
  {
    hide PeersInv;
  }

  lemma EmptySlots(p: Peers)
    ensures SlotsOk(p.(table := []))
  {
  }

  lemma NothingSevered(w: World)
    requires Inv(w)
    ensures Inv(w.(peers := w.peers.(severed := None)))
  {
    hide TableOk, OwnerOk;
  }

  lemma StepKeeps(w: World, t: Turn)
    requires Inv(w)
    ensures Inv(Step(w, t))
  {
    hide PeersInv, DoTeardown, OnPeers, DoTurnOn, DoTurnOff, DoInitialized, DoScanStopped, IssueScan;
    hide DoIntervalSet, WaitingOk;
    var v := w.(peers := w.peers.(severed := None));
    NothingSevered(w);
    match t {
      case TeardownResumes(n) => if n in v.waiting.teardowns { TeardownKeeps(v, n); }
      case TurnOn => TurnOnKeeps(v);
      case TurnOff(plugin) => TurnOffKeeps(v, plugin);
      case Initialized(n, ok) => if n in v.waiting.activating { InitializedKeeps(v, n, ok); }
      case RefreshScan(n) => RefreshKeeps(v, n);
      case ScanStopped(n, started) => if n in v.waiting.scans { ScanStoppedKeeps(v, n, started); }
      case IntervalSet(n) => IntervalSetKeeps(v, n);
      case _ => OnPeersKeeps(v.session, v.peers, t);
    }
  }

  lemma StartInv()
    ensures Inv(START)
  {
  }

  lemma {:induction false} RunsKeepInvariant(turns: seq<Turn>)
    ensures Inv(Run(turns))
  {
    hide Inv, Step;
    StartInv();
    if turns != [] {
      RunsKeepInvariant(turns[..|turns| - 1]);
      StepKeeps(Run(turns[..|turns| - 1]), turns[|turns| - 1]);
    }
  }

  // ---------------------------------------------------------------- the scan intervals

  /** An activation is at one point at a time, and its number was given before. */
  ghost predicate TimersOk(w: World) {
    && (forall n :: n in w.waiting.activating ==> n <= w.session.id)
    && (forall n :: n in w.waiting.arming ==> n <= w.session.id && n !in w.waiting.activating)
    && (forall n :: n in w.timers.intervals ==>
          n <= w.session.id && n !in w.waiting.activating && n !in w.waiting.arming)
  }

  lemma TimersKept(w: World, t: Turn)
    requires TimersOk(w)
    ensures TimersOk(Step(w, t)) && w.session.id <= Step(w, t).session.id
  {
    hide OnPeers, Devices;
  }

  lemma {:induction false} RunsKeepTimers(turns: seq<Turn>)
    ensures TimersOk(Run(turns))
  {
    hide TimersOk, Step;
    if turns == [] {
      NoTimers();
    } else {
      RunsKeepTimers(turns[..|turns| - 1]);
      TimersKept(Run(turns[..|turns| - 1]), turns[|turns| - 1]);
    }
  }

  lemma NoTimers()
    ensures TimersOk(START)
  {
  }

  /** The turn in which activation `n` sets its interval. */
  predicate Sets(turns: seq<Turn>, i: nat, n: nat) {
    i < |turns| && turns[i] == IntervalSet(n) && Arms(Run(turns[..i]), n)
  }

  ghost predicate HasSet(turns: seq<Turn>, n: nat) {
    exists i :: Sets(turns, i, n)
  }

  /** After session `n`, an older one has set its interval as well. */
  ghost predicate Overwritten(turns: seq<Turn>, n: nat) {
    exists i, j, m: nat :: i < j && m < n && Sets(turns, i, n) && Sets(turns, j, m)
  }

  lemma SetsSnoc(past: seq<Turn>, t: Turn)
    ensures forall i: nat, n: nat :: Sets(past + [t], i, n) <==>
              Sets(past, i, n) || (i == |past| && t == IntervalSet(n) && Arms(Run(past), n))
    ensures forall i: nat, n: nat :: Sets(past, i, n) ==> i < |past|
  {
    hide Run, Arms;
    forall i: nat | i <= |past|
      ensures (past + [t])[..i] == past[..i]
    {
    }
    assert past[..|past|] == past;
  }

  /** What the history says of the current session's interval. */
  ghost predicate HistoryOk(turns: seq<Turn>) {
    var w := Run(turns);
    var n := w.session.id;
    && (forall i: nat, m: nat :: Sets(turns, i, m) ==> m <= n)
    && (n in w.timers.intervals <==> HasSet(turns, n))
    && (n in w.timers.intervals && w.timers.refresh != Some(n) <==> Overwritten(turns, n))
  }

  lemma {:induction false} HistoryHolds(turns: seq<Turn>)
    ensures HistoryOk(turns)
  {
    hide Run, Step, Sets, TimersOk, HistoryOk;
    if turns == [] {
      EmptyHistory();
    } else {
      var past, t := turns[..|turns| - 1], turns[|turns| - 1];
      HistoryHolds(past);
      RunsKeepTimers(past);
      RunSnoc(past, t);
      assert past + [t] == turns;
      HistoryGrows(past, t);
    }
  }

  lemma EmptyHistory()
    ensures HistoryOk([])
  {
  }

  lemma HistoryGrows(past: seq<Turn>, t: Turn)
    requires HistoryOk(past) && TimersOk(Run(past)) && Run(past + [t]) == Step(Run(past), t)
    ensures HistoryOk(past + [t])
  {
    hide Run, Step, Sets;
    SetsSnoc(past, t);
    TimersMove(Run(past), t);
    if t.IntervalSet? && Arms(Run(past), t.session) {
      HistoryOfSetting(past, t.session);
    } else {
      assert forall i: nat, m: nat :: Sets(past + [t], i, m) <==> Sets(past, i, m);
    }
  }

  lemma HistoryOfSetting(past: seq<Turn>, m: nat)
    requires HistoryOk(past) && TimersOk(Run(past)) && Arms(Run(past), m)
    requires Run(past + [IntervalSet(m)]) == Step(Run(past), IntervalSet(m))
    ensures HistoryOk(past + [IntervalSet(m)])
  {
    hide Run, Sets;
    SetsSnoc(past, IntervalSet(m));
    var all, n := past + [IntervalSet(m)], Run(past).session.id;
    TimersMove(Run(past), IntervalSet(m));
    assert Sets(all, |past|, m);
    if m < n {
      if HasSet(past, n) {
        var i: nat :| Sets(past, i, n);
        assert Sets(all, i, n);
      }
    } else {
      assert !HasSet(past, n);
      assert forall i: nat :: Sets(all, i, n) ==> i == |past|;
    }
  }

  lemma TimersMove(w: World, t: Turn)
    requires TimersOk(w)
    ensures var v := Step(w, t);
            && (v.session.id == w.session.id ==>
                  v.timers == if t.IntervalSet? && Arms(w, t.session)
                              then Timers(Some(t.session), w.timers.intervals + {t.session}) else w.timers)
            && (v.session.id != w.session.id ==>
                  (t.TurnOn? || t.TurnOff?) && v.session.id == w.session.id + 1 && v.session.id !in v.timers.intervals)
  {
    hide OnPeers, Devices;
  }

  // A deactivation leaves the interval of the session it ends running exactly if an older activation came
  // back from its own scan after that session had set its interval: it then clears the older one's.
  lemma IntervalLeaksExactly(turns: seq<Turn>, plugin: bool)
    ensures var n := Run(turns).session.id;
            n in Step(Run(turns), TurnOff(plugin)).timers.intervals <==> Overwritten(turns, n)
  {
    hide Run, Sets, Overwritten, HasSet;
    HistoryHolds(turns);
  }

  /** Interval `n` runs, and nothing holds its handle or will ever set it again. */
  ghost predicate Leaked(w: World, n: nat) {
    && n in w.timers.intervals && w.timers.refresh != Some(n) && n < w.session.id
    && n !in w.waiting.arming && n !in w.waiting.activating
  }

  lemma OffLeaks(w: World, plugin: bool)
    requires TimersOk(w) && w.session.id in Step(w, TurnOff(plugin)).timers.intervals
    ensures Leaked(Step(w, TurnOff(plugin)), w.session.id)
  {
  }

  lemma LeakStays(w: World, t: Turn, n: nat)
    requires Leaked(w, n)
    ensures Leaked(Step(w, t), n)
  {
    hide OnPeers, Devices;
  }

  lemma LeakNeverScans(w: World, n: nat)
    requires Leaked(w, n)
    ensures n in w.timers.intervals && Step(w, RefreshScan(n)) == w.(peers := w.peers.(severed := None))
  {
  }

  lemma {:induction false} LeakedAfter(turns: seq<Turn>, plugin: bool, later: seq<Turn>)
    requires Run(turns).session.id in Step(Run(turns), TurnOff(plugin)).timers.intervals
    ensures Leaked(Run(turns + [TurnOff(plugin)] + later), Run(turns).session.id)
  {
    hide Run, Step, Leaked, TimersOk;
    var n, off := Run(turns).session.id, turns + [TurnOff(plugin)];
    if later == [] {
      RunSnoc(turns, TurnOff(plugin));
      RunsKeepTimers(turns);
      assert off + later == off;
      OffLeaks(Run(turns), plugin);
    } else {
      var k := |later| - 1;
      LeakedAfter(turns, plugin, later[..k]);
      assert off + later == off + later[..k] + [later[k]];
      RunSnoc(off + later[..k], later[k]);
      LeakStays(Run(off + later[..k]), later[k], n);
    }
  }

  // A leaked interval runs for ever, and never scans again.
  lemma LeakedIntervalRunsOn(turns: seq<Turn>, plugin: bool, later: seq<Turn>)
    requires Run(turns).session.id in Step(Run(turns), TurnOff(plugin)).timers.intervals
    ensures var n, v := Run(turns).session.id, Run(turns + [TurnOff(plugin)] + later);
            n in v.timers.intervals && Step(v, RefreshScan(n)) == v.(peers := v.peers.(severed := None))
  {
    hide Run, Step, Leaked;
    LeakedAfter(turns, plugin, later);
    LeakNeverScans(Run(turns + [TurnOff(plugin)] + later), Run(turns).session.id);
  }

  // A run in which the radio takes its time to begin the first session's scan.
  lemma IntervalLeaks()
    ensures var turns := [TurnOn] + [Initialized(1, true)] + [ScanStopped(1, true)] + [TurnOff(true)] + [TurnOn] +
                         [Initialized(3, true)] + [ScanStopped(3, true)] + [IntervalSet(3)] + [IntervalSet(1)];
            Run(turns).session.id == 3 && 3 in Step(Run(turns), TurnOff(true)).timers.intervals
  {
    hide Run;
    RunStart();
    assert [] + [TurnOn] == [TurnOn];
    RunSnoc([], TurnOn);
    var s := Then([TurnOn], Initialized(1, true));
    s := Then(s, ScanStopped(1, true));
    s := Then(s, TurnOff(true));
    s := Then(s, TurnOn);
    s := SecondScan(s);
    s := Then(s, IntervalSet(3));
    s := Then(s, IntervalSet(1));
  }

  lemma SecondScan(past: seq<Turn>) returns (all: seq<Turn>)
    requires var w := Run(past);
             && w.session.id == 3 && 3 in w.waiting.activating && w.waiting.arming == {1}
             && w.waiting.scans == multiset{} && w.timers == Timers(None, {})
    ensures all == past + [Initialized(3, true)] + [ScanStopped(3, true)]
    ensures var w := Run(all);
            && w.session.id == 3 && w.waiting.arming == {1, 3} && w.waiting.scans == multiset{}
            && w.timers == Timers(None, {})
  {
    hide Run;
    all := Then(past, Initialized(3, true));
    all := Then(all, ScanStopped(3, true));
  }

  // ---------------------------------------------------------------- what runs guarantee

  // While the relay is active, table and seen cache are the current session's own, every tracked record
  // was reserved by it and none leaks; and never more than seven devices are tracked.
  lemma ActiveSessionOwnsItsState(turns: seq<Turn>)
    ensures var w := Run(turns);
            && |w.peers.table| <= 7 && DistinctDevices(w.peers.table)
            && (w.session.active ==>
                  && w.session.owner == w.session.id && w.session.seen == Some(w.session.id)
                  && (forall c :: c in w.peers.table ==> c.session == w.session.id)
                  && (forall c :: c in w.peers.table && c !in w.peers.names ==> c in w.peers.attempts))
  {
    hide Run;
    RunsKeepInvariant(turns);
  }

  /** Turns that something of another session takes. */
  predicate Stale(w: World, t: Turn) {
    match t
    case TurnOn => false
    case TurnOff(_) => false
    case Hello(via, _) => via.session != w.session.id
    case Initialized(n, _) => n != w.session.id
    case RefreshScan(n) => n != w.session.id
    case ScanStopped(n, _) => n != w.session.id
    case IntervalSet(n) => n != w.session.id
    case TeardownResumes(n) => n != w.session.id
    case ScanResult(n, _) => n != w.session.id
    case Dropped(c) => c.session != w.session.id
    case AttemptResumes(c, _) => c.session != w.session.id
    case HelloFails(c) => c.session != w.session.id
    case CleanupResumes(c) => c.session != w.session.id
  }

  /** Two worlds look the same to the live session: its variables, its records, its attempts. */
  ghost predicate SameForSession(a: World, b: World) {
    && a.session == b.session && a.peers.table == b.peers.table && a.peers.names == b.peers.names
    && (forall c :: c in a.peers.table ==> (c in a.peers.armed <==> c in b.peers.armed))
    && (forall c :: c in a.peers.table ==> (c in a.peers.attempts <==> c in b.peers.attempts))
    && (forall c :: c in a.peers.table && c in a.peers.attempts ==> b.peers.attempts[c] == a.peers.attempts[c])
  }

  /** A HELLO reaches a tracked record that has no peer yet and waits for one. */
  predicate Identifies(w: World, t: Turn) {
    && t.Hello? && t.via in w.peers.subscribed
    && var found := Find(w.peers.table, t.via.device);
       found.Some? && found.value !in w.peers.names && found.value in w.peers.armed
  }

  ghost predicate OthersKept(a: Peers, b: Peers, c: Conn) {
    && (forall x :: x != c ==> (x in a.names <==> x in b.names) && (x in a.armed <==> x in b.armed))
    && (forall x :: x != c ==> (x in a.attempts <==> x in b.attempts))
    && (forall x :: x != c && x in a.names && x in b.names ==> a.names[x] == b.names[x])
    && (forall x :: x != c && x in a.attempts && x in b.attempts ==> a.attempts[x] == b.attempts[x])
  }

  // Nothing an older session left behind inserts, deletes or clears a record of a live one or changes its
  // variables or scan callback, but for two things that have no guard. A HELLO its notification callbacks
  // deliver changes a live session exactly when the device's tracked record waits for one, and then
  // identifies that record and touches no other. And its activation, late back from its scan, puts its own
  // interval into the timer variable.
  lemma StaleTurnsAreInvisible(turns: seq<Turn>, t: Turn)
    requires Run(turns).session.Live() && Stale(Run(turns), t)
    ensures var w, v := Run(turns), Step(Run(turns), t);
            && v.session == w.session && v.peers.table == w.peers.table
            && (SameForSession(w, v) <==> !Identifies(w, t))
            && (Identifies(w, t) ==>
                  var c := Find(w.peers.table, t.via.device).value;
                  && v.peers.severed == None && v.waiting == w.waiting
                  && c in v.peers.names && v.peers.names[c] == t.peer && OthersKept(w.peers, v.peers, c))
            && (v.timers == w.timers <==> !(t.IntervalSet? && Arms(w, t.session)))
            && (v.timers != w.timers ==> v.timers == Timers(Some(t.session), w.timers.intervals + {t.session}))
  {
    hide Run, Step, Identifies, SameForSession, OthersKept, Find;
    RunsKeepInvariant(turns);
    RunsKeepTimers(turns);
    StaleTimers(Run(turns), t);
    if t.Hello? {
      StaleHello(Run(turns), t);
    } else {
      StaleTurn(Run(turns), t);
    }
  }

  lemma StaleTimers(w: World, t: Turn)
    requires TimersOk(w) && Stale(w, t)
    ensures var v := Step(w, t);
            && (v.timers == w.timers <==> !(t.IntervalSet? && Arms(w, t.session)))
            && (v.timers != w.timers ==> v.timers == Timers(Some(t.session), w.timers.intervals + {t.session}))
  {
    hide OnPeers, Devices;
  }

  lemma StaleTurn(w: World, t: Turn)
    requires Inv(w) && w.session.Live() && Stale(w, t) && !t.Hello?
    ensures SameForSession(w, Step(w, t)) && !Identifies(w, t)
    ensures Step(w, t).session == w.session && Step(w, t).peers.table == w.peers.table
  {
    hide Inv, SameForSession, DoTeardown, DoInitialized, DoScanStopped, OnPeers, Minus;
    var v := w.(peers := w.peers.(severed := None));
    SameWithout(w);
    if t.Initialized? || t.RefreshScan? || t.ScanStopped? || t.IntervalSet? || t.TeardownResumes? {
      StaleSessionTurn(v, t);
    } else {
      StalePeerTurn(v, t);
    }
    SameTwice(w, v, Step(w, t));
  }

  lemma SameWithout(w: World)
    requires Inv(w)
    ensures var v := w.(peers := w.peers.(severed := None)); SameForSession(w, v) && Inv(v)
  {
    hide TableOk;
  }

  lemma SameTwice(a: World, b: World, c: World)
    requires SameForSession(a, b) && SameForSession(b, c)
    ensures SameForSession(a, c)
  {
  }

  lemma StaleSessionTurn(w: World, t: Turn)
    requires w.session.Live() && Stale(w, t)
    requires t.Initialized? || t.RefreshScan? || t.ScanStopped? || t.IntervalSet? || t.TeardownResumes?
    ensures SameForSession(w, Apply(w, t))
  {
    hide Devices;
  }

  lemma StalePeerTurn(w: World, t: Turn)
    requires Inv(w) && w.session.Live() && Stale(w, t)
    requires t.ScanResult? || t.Dropped? || t.AttemptResumes? || t.HelloFails? || t.CleanupResumes?
    ensures SameForSession(w, Apply(w, t))
  {
    hide Inv, Find, Minus, StartCleanup;
    if t.Dropped? {
      StaleIsUntracked(w, t.conn);
    } else if !t.ScanResult? {
      StaleIsUntracked(w, t.conn);
      CleanupOfUntracked(w.peers, t.conn);
    }
  }

  lemma StaleIsUntracked(w: World, c: Conn)
    requires Inv(w) && w.session.Live() && c.session != w.session.id
    ensures c !in w.peers.table
  {
    hide TableOk, SlotsOk, HellosOk, CleaningOk;
  }

  lemma CleanupOfUntracked(p: Peers, c: Conn)
    requires c !in p.table
    ensures StartCleanup(p, c) == p.(attempts := p.attempts - {c})
  {
  }

  lemma StaleHello(w: World, t: Turn)
    requires Inv(w) && w.session.Live() && t.Hello?
    ensures var v := Step(w, t);
            && v.session == w.session && v.peers.table == w.peers.table
            && (SameForSession(w, v) <==> !Identifies(w, t))
            && (Identifies(w, t) ==>
                  var c := Find(w.peers.table, t.via.device).value;
                  && v.peers.severed == None && v.waiting == w.waiting
                  && c in v.peers.names && v.peers.names[c] == t.peer && OthersKept(w.peers, v.peers, c))
  {
    hide Inv;
  }

  // ---------------------------------------------------------------- the late disconnects

  /** The live session tracks this device. */
  predicate LiveLink(w: World, d: DeviceId) {
    w.session.Live() && Find(w.peers.table, d).Some?
  }

  /** The device this turn tells the radio to disconnect. */
  function Severs(w: World, t: Turn): Option<DeviceId> {
    match t
    case TeardownResumes(n) =>
      if n in w.waiting.teardowns && w.waiting.teardowns[n].Unsubscribing? && w.waiting.teardowns[n].rest != []
      then Some(w.waiting.teardowns[n].rest[0]) else None
    case CleanupResumes(c) => if c in w.peers.cleaning then Some(c.device) else None
    case _ => None
  }

  // Every native disconnect of every run, and when it hits a device that a live session tracks: a
  // teardown's only if a newer session has begun since, which the two-role client checks; a cleanup's if
  // and only if a record made since the cleanup began holds the slot.
  lemma LiveLinkIsSeveredExactly(turns: seq<Turn>, t: Turn)
    ensures var w, v := Run(turns), Step(Run(turns), t);
            && v.peers.severed == Severs(w, t)
            && (v.peers.severed.Some? ==>
                  && v.session == w.session && v.peers.table == w.peers.table
                  && (t.TeardownResumes? && LiveLink(v, v.peers.severed.value) ==> t.token < w.session.id)
                  && (t.CleanupResumes? ==>
                        (LiveLink(v, v.peers.severed.value) <==>
                           w.session.Live() &&
                           exists x :: x in w.peers.table && x.device == t.conn.device &&
                                       x.id >= w.peers.cleaning[t.conn])))
  {
    hide Run, Step, LiveLink, Severs, DoTeardown, OnPeers, Inv;
    RunsKeepInvariant(turns);
    SeversWhat(Run(turns), t);
    if Severs(Run(turns), t).Some? {
      LiveLinkExactly(Run(turns), t);
      LiveLinkStays(Run(turns), Step(Run(turns), t), Severs(Run(turns), t).value);
    }
  }

  lemma SeversWhat(w: World, t: Turn)
    ensures var v := Step(w, t);
            && v.peers.severed == Severs(w, t)
            && (v.peers.severed.Some? ==> v.session == w.session && v.peers.table == w.peers.table)
            && (v.peers.severed.Some? && t.CleanupResumes? ==>
                  v.peers.severed.value == t.conn.device && t.conn in w.peers.cleaning)
            && (v.peers.severed.Some? ==> (t.TeardownResumes? && t.token in w.waiting.teardowns) || t.CleanupResumes?)
  {
    hide Find, Minus, Devices;
  }

  lemma LiveLinkStays(w: World, v: World, d: DeviceId)
    requires v.session == w.session && v.peers.table == w.peers.table
    ensures LiveLink(v, d) == LiveLink(w, d)
  {
  }

  lemma LiveLinkExactly(w: World, t: Turn)
    requires Inv(w) && Severs(w, t).Some?
    ensures var d := Severs(w, t).value;
            && (t.TeardownResumes? && LiveLink(w, d) ==> t.token < w.session.id)
            && (t.CleanupResumes? ==>
                  (LiveLink(w, d) <==>
                     w.session.Live() &&
                     exists x :: x in w.peers.table && x.device == t.conn.device && x.id >= w.peers.cleaning[t.conn]))
  {
    hide TableOk, HellosOk, SlotsOk;
    var found := Find(w.peers.table, Severs(w, t).value);
  }

  // A teardown takes its list of devices only after it has waited for the scan to stop. They are those of
  // the sessions it ends exactly when no later activation has put its own table in place by then.
  lemma TeardownListIsItsOwnExactlyWhenNotOvertaken(turns: seq<Turn>, token: nat)
    requires var w := Run(turns); token in w.waiting.teardowns && w.waiting.teardowns[token] == StoppingScan
    ensures var w := Run(turns);
            && ((forall c :: c in w.peers.table ==> c.session < token) <==>
                  w.session.owner < token || w.peers.table == [])
            && (token == w.session.id ==> w.session.owner < token || w.peers.table == [])
            && Step(w, TeardownResumes(token)).waiting.teardowns ==
               if w.peers.table == [] then w.waiting.teardowns - {token}
               else w.waiting.teardowns[token := Unsubscribing(Devices(w.peers.table))]
  {
    hide Run;
    RunsKeepInvariant(turns);
    var w := Run(turns);
    if w.peers.table != [] {
      assert w.peers.table[0] in w.peers.table;
    }
  }

  /** No activation begins while a teardown is pending. */
  ghost predicate TeardownsFinishFirst(turns: seq<Turn>) {
    forall i :: 0 <= i < |turns| && turns[i].TurnOn? ==> Run(turns[..i]).waiting.teardowns == map[]
  }

  /** No scan result arrives for a device that is still being cleaned up. */
  ghost predicate CleanupsFinishFirst(turns: seq<Turn>) {
    forall i, c :: 0 <= i < |turns| && turns[i].ScanResult? && c in Run(turns[..i]).peers.cleaning ==>
                     c.device != turns[i].device
  }

  ghost predicate TeardownsAreCalm(w: World) {
    w.waiting.teardowns != map[] ==> !w.session.Live()
  }

  ghost predicate CleanupsAreCalm(p: Peers) {
    forall c, x :: c in p.cleaning && x in p.table ==> x.device != c.device
  }

  lemma TeardownsStayCalm(w: World, t: Turn)
    requires Inv(w) && TeardownsAreCalm(w) && (t.TurnOn? ==> w.waiting.teardowns == map[])
    ensures TeardownsAreCalm(Step(w, t))
  {
    hide OnPeers, Devices, TableOk, RecordsOk, HellosOk, CleaningOk, SlotsOk;
  }

  lemma CleanupsStayCalm(w: World, t: Turn)
    requires Inv(w) && CleanupsAreCalm(w.peers)
    requires t.ScanResult? ==> forall c :: c in w.peers.cleaning ==> c.device != t.device
    ensures CleanupsAreCalm(Step(w, t).peers)
  {
    hide Inv, Devices, Minus, Find, TableOk, OwnerOk;
    if t.AttemptResumes? && t.conn in w.peers.table {
      InvPeers(w);
      SlotIsFree(w.session, w.peers, t.conn);
    }
  }

  lemma InvPeers(w: World)
    requires Inv(w)
    ensures PeersInv(w.session, w.peers)
  {
  }

  lemma {:induction false} TeardownsKeepCalm(turns: seq<Turn>)
    requires TeardownsFinishFirst(turns)
    ensures TeardownsAreCalm(Run(turns))
  {
    hide Inv, Step, TeardownsAreCalm;
    if turns == [] {
      CalmStart();
    } else {
      var n := |turns| - 1;
      assert forall i :: 0 <= i < n ==> turns[..n][..i] == turns[..i];
      TeardownsKeepCalm(turns[..n]);
      RunsKeepInvariant(turns[..n]);
      TeardownsStayCalm(Run(turns[..n]), turns[n]);
    }
  }

  lemma {:induction false} CleanupsKeepCalm(turns: seq<Turn>)
    requires CleanupsFinishFirst(turns)
    ensures CleanupsAreCalm(Run(turns).peers)
  {
    hide Inv, Step, CleanupsAreCalm;
    if turns == [] {
      CalmStart();
    } else {
      var n := |turns| - 1;
      assert forall i :: 0 <= i < n ==> turns[..n][..i] == turns[..i];
      CleanupsKeepCalm(turns[..n]);
      RunsKeepInvariant(turns[..n]);
      CleanupsStayCalm(Run(turns[..n]), turns[n]);
    }
  }

  lemma CalmStart()
    ensures TeardownsAreCalm(START) && CleanupsAreCalm(START.peers)
  {
  }

  // With no activation while a teardown is pending, no teardown of the whole run ever disconnects a device
  // of a live session; with no scan result for a device being cleaned up, no cleanup ever does.
  lemma OrderlyRunsSeverNothingLive(turns: seq<Turn>, t: Turn)
    ensures var v := Step(Run(turns), t);
            v.peers.severed.Some? && LiveLink(v, v.peers.severed.value) ==>
              && (t.TeardownResumes? ==> !TeardownsFinishFirst(turns))
              && (t.CleanupResumes? ==> !CleanupsFinishFirst(turns))
  {
    hide Run, Step, Inv, LiveLink, Severs, TeardownsFinishFirst, CleanupsFinishFirst, TeardownsAreCalm, CleanupsAreCalm;
    var w := Run(turns);
    LiveLinkIsSeveredExactly(turns, t);
    if Severs(w, t).Some? {
      LiveLinkStays(w, Step(w, t), Severs(w, t).value);
      SeversWhat(w, t);
      LinkIsLive(w, Severs(w, t).value);
      if t.TeardownResumes? && TeardownsFinishFirst(turns) {
        TeardownsKeepCalm(turns);
        CalmTeardown(w, t.token);
      }
      if t.CleanupResumes? && CleanupsFinishFirst(turns) {
        CleanupsKeepCalm(turns);
        CalmCleanup(w, t.conn);
      }
    }
  }

  lemma LinkIsLive(w: World, d: DeviceId)
    ensures LiveLink(w, d) ==> w.session.Live()
  {
  }

  lemma CalmTeardown(w: World, token: nat)
    requires TeardownsAreCalm(w) && token in w.waiting.teardowns
    ensures !w.session.Live()
  {
  }

  lemma CalmCleanup(w: World, c: Conn)
    requires CleanupsAreCalm(w.peers) && c in w.peers.cleaning
    ensures forall x :: x in w.peers.table ==> x.device != c.device
  {
  }

  // Overtaken by a new session, a teardown disconnects a device that session has just found.
  lemma OvertakenTeardownSeversLiveLink(d: DeviceId)
    ensures var turns := [TurnOn] + [TurnOff(true)] + [TurnOn] + [Initialized(3, true)] + [ScanStopped(3, true)] +
                         [ScanResult(3, d)] + [TeardownResumes(2)] + [TeardownResumes(2)];
            Run(turns).session.active && Run(turns).peers.severed == Some(d) && LiveLink(Run(turns), d)
  {
    hide Run;
    RunStart();
    assert [] + [TurnOn] == [TurnOn];
    RunSnoc([], TurnOn);
    var s := Then([TurnOn], TurnOff(true));
    s := Then(s, TurnOn);
    s := Finds(s, d);
    s := TeardownFollows(s, d);
  }

  lemma TeardownFollows(past: seq<Turn>, d: DeviceId) returns (all: seq<Turn>)
    requires var w := Run(past);
             && w.session.active && w.session.Live() && w.session.id == 3
             && w.peers.table == [Conn(0, d, Outbound, 3)] && w.waiting.teardowns == map[2 := StoppingScan]
    ensures all == past + [TeardownResumes(2)] + [TeardownResumes(2)]
    ensures Run(all).session.active && Run(all).peers.severed == Some(d) && LiveLink(Run(all), d)
  {
    hide Run, Devices;
    OneDevice(Conn(0, d, Outbound, 3));
    all := Then(past, TeardownResumes(2));
    all := Then(all, TeardownResumes(2));
  }

  // An active session whose initialize() is pending scans and reserves a slot for what it finds.
  lemma Finds(past: seq<Turn>, d: DeviceId) returns (all: seq<Turn>)
    requires var w := Run(past);
             w.session.active && w.session.id in w.waiting.activating && w.peers.table == []
    ensures var w, v := Run(past), Run(all);
            var n := w.session.id;
            var c := Conn(w.peers.made, d, Outbound, n);
            && all == past + [Initialized(n, true)] + [ScanStopped(n, true)] + [ScanResult(n, d)]
            && v.session == w.session.(scan := Some(n), heard := w.session.heard + {n})
            && v.peers.table == [c] && v.peers.made == w.peers.made + 1 && v.peers.cleaning == w.peers.cleaning
            && c in v.peers.attempts && v.peers.attempts[c] == Connecting
            && v.peers.subscribed == w.peers.subscribed && v.peers.names == w.peers.names
            && v.waiting.teardowns == w.waiting.teardowns
  {
    hide Run;
    var n := Run(past).session.id;
    all := Then(past, Initialized(n, true));
    all := Then(all, ScanStopped(n, true));
    all := Then(all, ScanResult(n, d));
  }

  // A run in which a notification callback of session 1 delivers the HELLO that session 3 waits for.
  lemma StaleHelloIdentifies(d: DeviceId, peer: NodeId)
    ensures var first, c := Conn(0, d, Outbound, 1), Conn(1, d, Outbound, 3);
            var turns := [TurnOn] + [Initialized(1, true)] + [ScanStopped(1, true)] + [ScanResult(1, d)] +
                         [AttemptResumes(first, true)] + [TurnOff(true)] + [TurnOn] +
                         [Initialized(3, true)] + [ScanStopped(3, true)] + [ScanResult(3, d)] +
                         [AttemptResumes(c, true)] + [AttemptResumes(c, true)];
            var w, t := Run(turns), Hello(first, peer);
            && w.session.Live() && Stale(w, t) && Identifies(w, t)
            && c in Step(w, t).peers.names && Step(w, t).peers.names[c] == peer
  {
    hide Run, Step;
    var first := Conn(0, d, Outbound, 1);
    var s := Begins();
    s := Finds(s, d);
    s := Replaced(s, first);
    s := Finds(s, d);
    s := Awaits(s, first, Conn(1, d, Outbound, 3));
    Greeted(Run(s), first, Conn(1, d, Outbound, 3), peer);
  }

  lemma Begins() returns (turns: seq<Turn>)
    ensures turns == [TurnOn]
    ensures var w := Run(turns);
            && w.session.active && w.session.id == 1 && 1 in w.waiting.activating
            && w.peers.table == [] && w.peers.made == 0 && w.peers.names == map[]
  {
    hide Run;
    turns := [TurnOn];
    RunStart();
    assert [] + [TurnOn] == [TurnOn];
    RunSnoc([], TurnOn);
  }

  // The first session registers its callback, and another session takes its place.
  lemma Replaced(past: seq<Turn>, c: Conn) returns (all: seq<Turn>)
    requires var w := Run(past);
             && w.session.active && w.session.id == 1 && c.session == 1 && w.peers.made == 1
             && c in w.peers.attempts && w.peers.attempts[c] == Connecting && w.peers.names == map[]
    ensures all == past + [AttemptResumes(c, true)] + [TurnOff(true)] + [TurnOn]
    ensures var w := Run(all);
            && w.session.active && w.session.Live() && w.session.id == 3 && 3 in w.waiting.activating
            && w.peers.table == []
            && w.peers.made == 1 && c in w.peers.subscribed && w.peers.names == map[]
  {
    hide Run;
    all := Then(past, AttemptResumes(c, true));
    all := Then(all, TurnOff(true));
    all := Then(all, TurnOn);
  }

  lemma Awaits(past: seq<Turn>, first: Conn, c: Conn) returns (all: seq<Turn>)
    requires var w := Run(past);
             && w.session.active && w.session.id == c.session && w.peers.table == [c]
             && c in w.peers.attempts && w.peers.attempts[c] == Connecting
             && first in w.peers.subscribed && w.peers.names == map[]
    ensures all == past + [AttemptResumes(c, true)] + [AttemptResumes(c, true)]
    ensures var w, v := Run(past), Run(all);
            && v.session == w.session && v.peers.table == [c] && c in v.peers.armed
            && first in v.peers.subscribed && v.peers.names == map[]
  {
    hide Run;
    all := Then(past, AttemptResumes(c, true));
    all := Then(all, AttemptResumes(c, true));
  }

  lemma Greeted(w: World, first: Conn, c: Conn, peer: NodeId)
    requires w.peers.table == [c] && c in w.peers.armed && first in w.peers.subscribed && w.peers.names == map[]
    requires first.device == c.device
    ensures var t := Hello(first, peer);
            Identifies(w, t) && c in Step(w, t).peers.names && Step(w, t).peers.names[c] == peer
  {
  }

  // Found again while its failed attempt is being cleaned up, a device loses its new link.
  lemma LateCleanupSeversLiveLink(d: DeviceId)
    ensures var c := Conn(0, d, Outbound, 1);
            var turns := [TurnOn] + [Initialized(1, true)] + [ScanStopped(1, true)] + [ScanResult(1, d)] +
                         [AttemptResumes(c, false)] + [ScanResult(1, d)] + [CleanupResumes(c)];
            Run(turns).session.active && Run(turns).peers.severed == Some(d) && LiveLink(Run(turns), d)
  {
    hide Run;
    RunStart();
    assert [] + [TurnOn] == [TurnOn];
    RunSnoc([], TurnOn);
    var s := Finds([TurnOn], d);
    s := CleanupFollows(s, d);
  }

  lemma CleanupFollows(past: seq<Turn>, d: DeviceId) returns (all: seq<Turn>)
    requires var w, c := Run(past), Conn(0, d, Outbound, 1);
             && w.session.active && w.session.Live() && w.session.id == 1 && 1 in w.session.heard
             && w.peers.table == [c] && c in w.peers.attempts && w.peers.attempts[c] == Connecting
    ensures var c := Conn(0, d, Outbound, 1);
            all == past + [AttemptResumes(c, false)] + [ScanResult(1, d)] + [CleanupResumes(c)]
    ensures Run(all).session.active && Run(all).peers.severed == Some(d) && LiveLink(Run(all), d)
  {
    hide Run;
    var c := Conn(0, d, Outbound, 1);
    all := Then(past, AttemptResumes(c, false));
    assert Run(all).peers.table == [] && c in Run(all).peers.cleaning;
    all := Then(all, ScanResult(1, d));
    all := Then(all, CleanupResumes(c));
  }

  lemma Then(past: seq<Turn>, t: Turn) returns (all: seq<Turn>)
    ensures all == past + [t] && Run(all) == Step(Run(past), t)
  {
    all := past + [t];
    RunSnoc(past, t);
  }

  lemma OneDevice(c: Conn)
    ensures Devices([c]) == [c.device]
  {
  }

  lemma RunStart()
    ensures Run([]) == START
  {
  }

  lemma RunSnoc(past: seq<Turn>, t: Turn)
    ensures Run(past + [t]) == Step(Run(past), t)
  {
    assert (past + [t])[..|past|] == past;
  }

  // ---------------------------------------------------------------- what a session brings about

  function StepAll(w: World, turns: seq<Turn>): World {
    if turns == [] then w else Step(StepAll(w, turns[..|turns| - 1]), turns[|turns| - 1])
  }

  lemma StepAllSnoc(w: World, past: seq<Turn>, t: Turn)
    ensures StepAll(w, past + [t]) == Step(StepAll(w, past), t)
  {
    assert (past + [t])[..|past|] == past;
  }

  lemma FourTurns(w: World, a: Turn, b: Turn, c: Turn, d: Turn)
    ensures StepAll(w, [a] + [b] + [c] + [d]) == Step(Step(Step(Step(w, a), b), c), d)
  {
    hide StepAll, Step;
    StepAllSnoc(w, [a] + [b] + [c], d);
    StepAllSnoc(w, [a] + [b], c);
    StepAllSnoc(w, [a], b);
    StepAllSnoc(w, [], a);
    assert [] + [a] == [a];
    NoTurns(w);
  }

  lemma NoTurns(w: World)
    ensures StepAll(w, []) == w
  {
  }

  // Left alone, an activation is up with an empty table of its own: its callback is registered with the
  // radio, its interval runs and can be cleared, and at each tick it scans again.
  lemma ActivationCompletes(turns: seq<Turn>)
    ensures var w := Run(turns);
            var n := w.session.id + 1;
            var up := StepAll(w, [TurnOn] + [Initialized(n, true)] + [ScanStopped(n, true)] + [IntervalSet(n)]);
            && up.session.active && up.session.id == n && up.session.Live() && up.peers.table == []
            && up.session.scan == Some(n) && n in up.session.heard
            && n in up.timers.intervals && up.timers.refresh == Some(n)
            && ScansAgain(up)
  {
    hide Run, Step, StepAll;
    var w := Run(turns);
    RunsKeepInvariant(turns);
    RunsKeepTimers(turns);
    var n := w.session.id + 1;
    FourTurns(w, TurnOn, Initialized(n, true), ScanStopped(n, true), IntervalSet(n));
    Activated(w);
    TickScansAgain(Step(Step(Step(Step(w, TurnOn), Initialized(n, true)), ScanStopped(n, true)), IntervalSet(n)));
  }

  lemma Activated(w: World)
    requires Inv(w) && TimersOk(w)
    ensures var n := w.session.id + 1;
            var up := Step(Step(Step(Step(w, TurnOn), Initialized(n, true)), ScanStopped(n, true)), IntervalSet(n));
            && up.session.active && up.session.id == n && up.session.Live() && up.peers.table == []
            && up.session.scan == Some(n) && n in up.session.heard
            && n in up.timers.intervals && up.timers.refresh == Some(n)
  {
    hide PeersInv;
    var n := w.session.id + 1;
    assert n !in w.waiting.scans;
    TurnedOn(w);
    Scans(Step(w, TurnOn), n);
  }

  lemma TurnedOn(w: World)
    ensures var n := w.session.id + 1;
            var v := Step(w, TurnOn);
            && v.session.active && v.session.id == n && v.session.Live() && v.peers.table == []
            && n in v.waiting.activating && v.waiting.scans == w.waiting.scans
  {
  }

  lemma Scans(w: World, n: nat)
    requires w.session.active && w.session.id == n && w.session.Live() && w.peers.table == []
    requires n in w.waiting.activating && n !in w.waiting.scans
    ensures var up := Step(Step(Step(w, Initialized(n, true)), ScanStopped(n, true)), IntervalSet(n));
            && up.session.active && up.session.id == n && up.session.Live() && up.peers.table == []
            && up.session.scan == Some(n) && n in up.session.heard
            && n in up.timers.intervals && up.timers.refresh == Some(n)
  {
    hide OnPeers, Devices;
  }

  /** The interval's tick stops the radio's scan and starts a new one; one that fails to start is retried. */
  ghost predicate ScansAgain(w: World) {
    var n := w.session.id;
    var stopped := Step(w, RefreshScan(n));
    var failed := Step(stopped, ScanStopped(n, false));
    && stopped.session == w.session.(scan := None) && n in stopped.waiting.scans
    && Step(stopped, ScanStopped(n, true)).session == w.session
    && failed.session == stopped.session
    && Step(Step(failed, RefreshScan(n)), ScanStopped(n, true)).session == w.session
  }

  lemma TickScansAgain(w: World)
    requires w.session.active && w.session.id in w.timers.intervals
    requires w.session.scan == Some(w.session.id) && w.session.id in w.session.heard
    ensures ScansAgain(w)
  {
    hide OnPeers;
    assert w.session.heard + {w.session.id} == w.session.heard;
  }

  // If the radio cannot be initialized the relay is switched off, exactly if no newer session has begun,
  // and nothing is scanned.
  lemma FailedActivationSwitchesOff(turns: seq<Turn>, n: nat)
    requires n in Run(turns).waiting.activating
    ensures var w, now := Run(turns), Step(Run(turns), Initialized(n, false));
            && now.session == w.session.(active := w.session.active && n != w.session.id)
            && now.waiting == w.waiting.(activating := w.waiting.activating - {n})
            && now.peers.table == w.peers.table && now.timers == w.timers
  {
    hide Run;
  }

  // An active session reserves a slot for a scanned device exactly if it tracks fewer than seven and not
  // this one; the device then connects, and its HELLO identifies it.
  lemma HandshakeIdentifies(turns: seq<Turn>, d: DeviceId, peer: NodeId)
    requires var w := Run(turns); w.session.active && w.session.id in w.session.heard
    ensures var w := Run(turns);
            var c := Conn(w.peers.made, d, Outbound, w.session.id);
            var found := Step(w, ScanResult(w.session.id, d));
            if Find(w.peers.table, d).Some? || |w.peers.table| >= 7 then found.peers.table == w.peers.table
            else
              var connect := AttemptResumes(c, true);
              var waits := Step(Step(found, connect), connect);
              var done := Step(Step(waits, Hello(c, peer)), connect);
              && found.peers.table == w.peers.table + [c] && done.peers.table == found.peers.table
              && done.peers.names == w.peers.names[c := peer] && c !in done.peers.attempts
              && done.session == w.session && done.waiting == w.waiting
  {
    hide Run, Step;
    RunsKeepInvariant(turns);
    var w := Run(turns);
    var c := Conn(w.peers.made, d, Outbound, w.session.id);
    Reserves(w, d);
    if Find(w.peers.table, d).None? && |w.peers.table| < 7 {
      FindsLast(w.peers.table, c);
      Identified(w, Step(w, ScanResult(w.session.id, d)), c, peer);
    }
  }

  lemma Reserves(w: World, d: DeviceId)
    requires Inv(w) && w.session.active && w.session.id in w.session.heard
    ensures var c := Conn(w.peers.made, d, Outbound, w.session.id);
            var v := Step(w, ScanResult(w.session.id, d));
            && v.session == w.session && v.waiting == w.waiting && v.peers.names == w.peers.names
            && c !in v.peers.names && c !in v.peers.armed
            && if Find(w.peers.table, d).Some? || |w.peers.table| >= 7 then v.peers.table == w.peers.table
               else v.peers.table == w.peers.table + [c] && v.peers.attempts == w.peers.attempts[c := Connecting]
  {
    hide Find, TableOk, OwnerOk;
  }

  lemma {:induction false} FindsLast(t: Table, c: Conn)
    requires Find(t, c.device).None?
    ensures Find(t + [c], c.device) == Some(c)
  {
    if t == [] {
      assert t + [c] == [c];
    } else {
      assert (t + [c])[1..] == t[1..] + [c];
      FindsLast(t[1..], c);
    }
  }

  lemma Identified(w: World, found: World, c: Conn, peer: NodeId)
    requires found.session == w.session && found.waiting == w.waiting && found.peers.names == w.peers.names
    requires c.session == w.session.id && c !in found.peers.names
    requires c in found.peers.attempts && found.peers.attempts[c] == Connecting
    requires Find(found.peers.table, c.device) == Some(c)
    ensures var connect := AttemptResumes(c, true);
            var done := Step(Step(Step(Step(found, connect), connect), Hello(c, peer)), connect);
            && done.peers.table == found.peers.table && done.peers.names == w.peers.names[c := peer]
            && c !in done.peers.attempts && done.session == w.session && done.waiting == w.waiting
  {
    hide Find, StartCleanup;
  }

  // The disconnect callback drops the record it was given, if that is still tracked, and no other.
  lemma DroppedFreesItsSlot(turns: seq<Turn>, c: Conn)
    ensures var w, now := Run(turns), Step(Run(turns), Dropped(c));
            && now.session == w.session && now.peers.severed == None
            && forall x :: x in now.peers.table <==> x in w.peers.table && x != c
  {
    hide Run;
  }

  // An attempt that fails is over and its record untracked; the radio is told to disconnect the device
  // after one more await exactly if the record still held the slot.
  lemma FailedAttemptDisconnectsExactly(turns: seq<Turn>, c: Conn, ok: bool)
    requires var w := Run(turns);
             && c in w.peers.attempts && w.peers.attempts[c] != AwaitingHello
             && (w.peers.attempts[c] == Failed || c.session != w.session.id || (!ok && w.peers.attempts[c] != Known))
    ensures var w, now := Run(turns), Step(Run(turns), AttemptResumes(c, ok));
            && c !in now.peers.attempts && c !in now.peers.table
            && (forall x :: x in w.peers.table && x != c ==> x in now.peers.table)
            && (c in w.peers.table ==> Step(now, CleanupResumes(c)).peers.severed == Some(c.device))
            && (c !in w.peers.table ==> now.peers.cleaning == w.peers.cleaning)
            && now.peers.severed == None && now.session == w.session
  {
    hide Run;
  }

  // Once its HELLO has come, an attempt of a session that goes on ends without touching anything else.
  lemma IdentifiedAttemptEnds(turns: seq<Turn>, c: Conn, ok: bool)
    requires var w := Run(turns);
             c in w.peers.attempts && w.peers.attempts[c] == Known && c.session == w.session.id
    ensures var w, now := Run(turns), Step(Run(turns), AttemptResumes(c, ok));
            && now == w.(peers := w.peers.(attempts := w.peers.attempts - {c}, severed := None))
            && c in now.peers.names
  {
    hide Run, TableOk, OwnerOk;
    RunsKeepInvariant(turns);
  }

  lemma FailedHelloEndsAttempt(turns: seq<Turn>, c: Conn, ok: bool)
    requires var p := Run(turns).peers; c in p.attempts && p.attempts[c] == AwaitingHello
    ensures var w := Run(turns);
            var failed := Step(w, HelloFails(c));
            var now := Step(failed, AttemptResumes(c, ok));
            && c in failed.peers.attempts && c !in failed.peers.armed && failed.peers.table == w.peers.table
            && c !in now.peers.attempts && c !in now.peers.table
            && (c in w.peers.table ==> Step(now, CleanupResumes(c)).peers.severed == Some(c.device))
  {
    hide Run;
  }

  // ---- a teardown

  /** The world after the same continuation has resumed `k` times with nothing in between. */
  function Resumed(w: World, t: Turn, k: nat): World
    decreases k
  {
    if k == 0 then w else Resumed(Step(w, t), t, k - 1)
  }

  /** The devices the radio was told to disconnect meanwhile, in order. */
  function Told(w: World, t: Turn, k: nat): seq<DeviceId>
    decreases k
  {
    if k == 0 then []
    else
      var v := Step(w, t);
      (if v.peers.severed.Some? then [v.peers.severed.value] else []) + Told(v, t, k - 1)
  }

  // Left alone, a deactivation stops the scan and its interval, disconnects exactly the tracked devices,
  // in order, and only then clears the session's variables.
  lemma TeardownCompletes(turns: seq<Turn>)
    ensures var w := Run(turns);
            var n := w.session.id + 1;
            var off, t := Step(w, TurnOff(true)), TeardownResumes(n);
            var k := 1 + 2 * |w.peers.table|;
            && !off.session.active && off.session.id == n && off.session.scan == None && off.timers.refresh == None
            && Resumed(off, t, k).session == off.session.(seen := None)
            && Resumed(off, t, k).peers.table == [] && n !in Resumed(off, t, k).waiting.teardowns
            && Told(off, t, k) == Devices(w.peers.table)
  {
    hide Run, Step, Resumed, Told;
    var w := Run(turns);
    var n := w.session.id + 1;
    var off, t := Step(w, TurnOff(true)), TeardownResumes(n);
    TurnedOff(w);
    Unfold(off, t, 2 * |w.peers.table|);
    DevicesCount(w.peers.table);
    LoopDrains(Step(off, t), off, n, Devices(w.peers.table));
  }

  lemma TurnedOff(w: World)
    ensures var n := w.session.id + 1;
            var off := Step(w, TurnOff(true));
            && !off.session.active && off.session.id == n && off.session.scan == None && off.timers.refresh == None
            && off.session.seen == w.session.seen && off.peers.table == w.peers.table
            && Step(off, TeardownResumes(n)) == NextDevice(off, n, Devices(w.peers.table))
            && n in off.waiting.teardowns && off.peers.severed == None
  {
    hide Devices, NextDevice;
  }

  lemma Unfold(w: World, t: Turn, k: nat)
    ensures Resumed(w, t, k + 1) == Resumed(Step(w, t), t, k) && Resumed(w, t, 0) == w && Told(w, t, 0) == []
    ensures Told(w, t, k + 1) ==
            (if Step(w, t).peers.severed.Some? then [Step(w, t).peers.severed.value] else []) + Told(Step(w, t), t, k)
  {
    hide Step;
  }

  lemma {:induction false} DevicesCount(t: Table)
    ensures |Devices(t)| == |t|
  {
    if t != [] {
      DevicesCount(t[1..]);
    }
  }

  lemma {:induction false} LoopDrains(v: World, w: World, token: nat, rest: seq<DeviceId>)
    requires v == NextDevice(w, token, rest) && w.session.id == token && token in w.waiting.teardowns
    requires w.peers.severed == None
    ensures var t := TeardownResumes(token);
            && Resumed(v, t, 2 * |rest|).session == w.session.(seen := None)
            && Resumed(v, t, 2 * |rest|).peers.table == []
            && token !in Resumed(v, t, 2 * |rest|).waiting.teardowns
            && Told(v, t, 2 * |rest|) == rest
    decreases |rest|
  {
    hide Step, Resumed, Told;
    var t := TeardownResumes(token);
    Unfold(v, t, 0);
    if rest != [] {
      var k := 2 * |rest[1..]|;
      var v1 := Step(v, t);
      Unfold(v, t, k + 1);
      Unfold(v1, t, k);
      OneDeviceLess(v, w, token, rest);
      LoopDrains(Step(v1, t), v1.(peers := v1.peers.(severed := None)), token, rest[1..]);
      assert [rest[0]] + ([] + rest[1..]) == rest;
    }
  }

  lemma OneDeviceLess(v: World, w: World, token: nat, rest: seq<DeviceId>)
    requires v == NextDevice(w, token, rest) && rest != [] && token in w.waiting.teardowns
    ensures var t := TeardownResumes(token);
            var v1 := Step(v, t);
            && v1.peers.severed == Some(rest[0]) && v1.session == w.session && token in v1.waiting.teardowns
            && Step(v1, t) == NextDevice(v1.(peers := v1.peers.(severed := None)), token, rest[1..])
            && Step(v1, t).peers.severed == None
  {
  }

  // Without a plugin there is nothing to wait for.
  lemma DeactivationWithoutPlugin(turns: seq<Turn>)
    ensures var w, now := Run(turns), Step(Run(turns), TurnOff(false));
            && now.session == w.session.(active := false, id := w.session.id + 1, seen := None)
            && now.peers.table == [] && now.peers.severed == None && now.timers.refresh == None
            && now.waiting == w.waiting
  {
    hide Run;
  }

  // ---------------------------------------------------------------- the client

  class RelayClient {
    var relayActive: bool
    var relaySessionId: nat
    var connections: Table
    var seenCache: Option<nat>
    var scanCallback: Option<nat>
    var scanHeard: set<nat>
    var scanRefreshTimer: Option<nat>
    var intervals: set<nat>  // the intervals that are running
    // the connection records' mutable fields, by record
    var peerNodeIds: map<Conn, NodeId>
    var identifyResolvers: set<Conn>
    var recordsMade: nat
    // suspended continuations
    var attempts: map<Conn, Attempt>
    var subscribed: set<Conn>
    var cleaning: map<Conn, nat>
    var activating: set<nat>
    var scans: multiset<nat>
    var arming: set<nat>
    var teardowns: map<nat, Teardown>
    ghost var tableOwner: nat
    ghost var severed: Option<DeviceId>
    ghost var history: seq<Turn>

    ghost function SessionNow(): Session
      reads this
    {
      Session(relayActive, relaySessionId, tableOwner, seenCache, scanCallback, scanHeard)
    }

    ghost function PeersNow(): Peers
      reads this
    {
      Peers(connections, peerNodeIds, identifyResolvers, recordsMade, attempts, subscribed, cleaning, severed)
    }

    ghost function WaitingNow(): Waiting
      reads this
    {
      Waiting(activating, scans, arming, teardowns)
    }

    ghost function TimersNow(): Timers
      reads this
    {
      Timers(scanRefreshTimer, intervals)
    }

    ghost function Now(): World
      reads this
    {
      World(SessionNow(), PeersNow(), WaitingNow(), TimersNow())
    }

    ghost predicate Valid()
      reads this
    {
      Now() == Run(history)
    }

    constructor ()
      ensures Valid() && history == []
    {
      relayActive, relaySessionId, connections, seenCache, scanCallback, scanHeard := false, 0, [], None, None, {};
      peerNodeIds, identifyResolvers, recordsMade, attempts, subscribed, cleaning := map[], {}, 0, map[], {}, map[];
      activating, scans, arming, teardowns := {}, multiset{}, {}, map[];
      scanRefreshTimer, intervals := None, {};
      tableOwner, severed, history := 0, None, [];
    }

    method ActivateRelay()
      modifies this`relayActive, this`relaySessionId, this`connections, this`seenCache, this`tableOwner, this`activating
      ensures Now() == DoTurnOn(old(Now()))
    {
      BeginSession();
      activating := activating + {relaySessionId};
    }

    method BeginSession()
      modifies this`relayActive, this`relaySessionId, this`connections, this`seenCache, this`tableOwner
      ensures var n := old(relaySessionId) + 1;
              && SessionNow() == old(SessionNow()).(active := true, id := n, owner := n, seen := Some(n))
              && PeersNow() == old(PeersNow()).(table := [])
    {
      relaySessionId := relaySessionId + 1;
      seenCache := Some(relaySessionId);
      connections := [];
      tableOwner := relaySessionId;
      relayActive := true;
    }

    method ResumeActivation(sessionId: nat, ok: bool)
      modifies this`relayActive, this`activating, this`arming, this`scanCallback, this`scans
      ensures Now() == DoInitialized(old(Now()), sessionId, ok)
    {
      activating := activating - {sessionId};
      if !ok {
        if sessionId == relaySessionId { relayActive := false; }
        return;
      }
      if sessionId != relaySessionId { return; }
      arming := arming + {sessionId};
      IssueScanFor(sessionId);
    }

    /** The end of `activateRelay`. */
    method StartInterval(sessionId: nat)
      modifies `arming, `intervals, `scanRefreshTimer
      ensures Now() == DoIntervalSet(old(Now()), sessionId)
    {
      arming := arming - {sessionId};
      intervals := intervals + {sessionId};
      scanRefreshTimer := Some(sessionId);
    }

    method ClearInterval()
      modifies `intervals, `scanRefreshTimer
      ensures TimersNow() == ClearedTimers(old(TimersNow()))
    {
      if scanRefreshTimer.Some? {
        intervals := intervals - {scanRefreshTimer.value};
        scanRefreshTimer := None;
      }
    }

    method IssueScanFor(sessionId: nat)
      modifies `scanCallback, `scans
      ensures Now() == IssueScan(old(Now()), sessionId)
    {
      scanCallback := None;
      scans := scans + multiset{sessionId};
    }

    method ResumeIssueScan(sessionId: nat, started: bool)
      modifies `scanCallback, `scanHeard, `scans
      ensures Now() == DoScanStopped(old(Now()), sessionId, started)
    {
      scans := scans - multiset{sessionId};
      if sessionId != relaySessionId { return; }
      if started { RequestScan(sessionId); }
    }

    method RequestScan(sessionId: nat)
      modifies `scanCallback, `scanHeard
      ensures SessionNow() == old(SessionNow()).(scan := Some(sessionId), heard := old(scanHeard) + {sessionId})
    {
      scanCallback := Some(sessionId);
      scanHeard := scanHeard + {sessionId};
    }

    method DeactivateRelay(plugin: bool)
      modifies this`relayActive, this`relaySessionId, this`connections, this`seenCache, this`scanCallback,
               this`teardowns, this`intervals, this`scanRefreshTimer
      ensures Now() == DoTurnOff(old(Now()), plugin)
    {
      hide ClearedTimers;
      EndSession();
      if plugin {
        StopScan();
      } else {
        ClearSession();
      }
    }

    /** The first call of a teardown. */
    method StopScan()
      modifies this`scanCallback, this`teardowns
      ensures SessionNow() == old(SessionNow()).(scan := None)
      ensures WaitingNow() == old(WaitingNow()).(teardowns := old(teardowns)[relaySessionId := StoppingScan])
    {
      scanCallback := None;
      teardowns := teardowns[relaySessionId := StoppingScan];
    }

    method EndSession()
      modifies this`relayActive, this`relaySessionId, this`intervals, this`scanRefreshTimer
      ensures SessionNow() == old(SessionNow()).(active := false, id := old(relaySessionId) + 1)
      ensures TimersNow() == ClearedTimers(old(TimersNow()))
    {
      hide ClearedTimers;
      relayActive := false;
      relaySessionId := relaySessionId + 1;
      ClearInterval();
    }

    method ClearSession()
      modifies this`connections, this`seenCache
      ensures SessionNow() == old(SessionNow()).(seen := None) && PeersNow() == old(PeersNow()).(table := [])
    {
      connections, seenCache := [], None;
    }

    method ResumeDeactivation(token: nat)
      requires token in teardowns
      modifies this`connections, this`seenCache, this`teardowns, this`severed
      ensures Now() == DoTeardown(old(Now()), token)
    {
      match teardowns[token]
      case StoppingScan =>
        var snapshot := DeviceIds();
        GoOnWith(token, snapshot);
      case Unsubscribing(rest) =>
        if rest != [] {
          severed := Some(rest[0]);
          teardowns := teardowns[token := Disconnecting(rest[1..])];
        }
      case Disconnecting(rest) => GoOnWith(token, rest);
    }

    method DeviceIds() returns (ids: seq<DeviceId>)
      ensures ids == Devices(connections)
    {
      ids := [];
      assert connections[0..] == connections;
      for i := 0 to |connections|
        invariant ids + Devices(connections[i..]) == Devices(connections)
      {
        assert connections[i..][1..] == connections[i + 1..];
        ids := ids + [connections[i].device];
      }
    }

    method GoOnWith(token: nat, rest: seq<DeviceId>)
      modifies this`connections, this`seenCache, this`teardowns
      ensures Now() == NextDevice(old(Now()), token, rest)
    {
      if rest != [] {
        teardowns := teardowns[token := Unsubscribing(rest)];
        return;
      }
      teardowns := teardowns - {token};
      if token != relaySessionId { return; }
      ClearSession();
    }

    method HandleScanResult(sessionId: nat, d: DeviceId)
      requires sessionId in scanHeard
      modifies this`connections, this`recordsMade, this`attempts
      ensures PeersNow() == DoScanResult(SessionNow(), old(PeersNow()), sessionId, d)
    {
      if !relayActive || sessionId != relaySessionId { return; }
      if Find(connections, d).Some? { return; }
      if |connections| >= MAX_CONNECTIONS { return; }
      var c := Conn(recordsMade, d, Outbound, sessionId);
      connections := connections + [c];
      recordsMade := recordsMade + 1;
      attempts := attempts[c := Connecting];
    }

    method HandlePeerDisconnected(c: Conn)
      modifies `connections
      ensures PeersNow() == DoDropped(old(PeersNow()), c)
    {
      if c !in connections { return; }
      connections := Minus(connections, c);
    }

    method HandleHello(via: Conn, peer: NodeId)
      requires via in subscribed
      modifies this`peerNodeIds, this`identifyResolvers, this`attempts
      ensures PeersNow() == DoHello(old(PeersNow()), via, peer)
    {
      var found := Find(connections, via.device);
      if found.None? { return; }
      var conn := found.value;
      if conn !in peerNodeIds && conn in identifyResolvers {
        peerNodeIds := peerNodeIds[conn := peer];
        attempts := attempts[conn := Known];
        identifyResolvers := identifyResolvers - {conn};
      }
    }

    method CleanupConnection(c: Conn)
      modifies `connections, `attempts, `cleaning
      ensures PeersNow() == StartCleanup(old(PeersNow()), c)
    {
      attempts := attempts - {c};
      if c !in connections { return; }
      connections := Minus(connections, c);
      cleaning := cleaning[c := recordsMade];
    }

    method ResumeConnectToPeer(c: Conn, ok: bool)
      requires c in attempts && attempts[c] != AwaitingHello
      modifies this`connections, this`attempts, this`subscribed, this`cleaning, this`identifyResolvers
      ensures PeersNow() == old(DoAttempt(SessionNow(), PeersNow(), c, ok))
    {
      hide StartCleanup;
      var at := attempts[c];
      if at == Failed || (!ok && at != Known) || c.session != relaySessionId {
        CleanupConnection(c);
        return;
      }
      match at
      case Connecting =>
        attempts := attempts[c := Subscribing];
        subscribed := subscribed + {c};
      case Subscribing =>
        attempts := attempts[c := AwaitingHello];
        identifyResolvers := identifyResolvers + {c};
      case Known => attempts := attempts - {c};
    }

    /** One turn of the event loop: whatever happens, the state stays that of the history's run. */
    method On(t: Turn)
      requires Valid()
      modifies this
      ensures Valid() && history == old(history) + [t]
    {
      hide Run, Apply;
      RunSnoc(history, t);
      history := history + [t];
      severed := None;
      if t.ScanResult? || t.Dropped? || t.Hello? || t.AttemptResumes? || t.HelloFails? || t.CleanupResumes? {
        OnConnections(t);
      } else {
        OnSession(t);
      }
    }

    method OnConnections(t: Turn)
      requires t.ScanResult? || t.Dropped? || t.Hello? || t.AttemptResumes? || t.HelloFails? || t.CleanupResumes?
      modifies this`connections, this`peerNodeIds, this`identifyResolvers, this`recordsMade, this`attempts,
               this`subscribed, this`cleaning, this`severed
      ensures Now() == Apply(old(Now()), t)
    {
      hide OnPeers, Apply;
      PeerTurn(Now(), t);
      if t.ScanResult? || t.Dropped? || t.Hello? {
        OnRadio(t);
      } else {
        OnAttempt(t);
      }
    }

    method OnSession(t: Turn)
      requires t.TurnOn? || t.Initialized? || t.RefreshScan? || t.ScanStopped? || t.IntervalSet? || t.TurnOff? ||
               t.TeardownResumes?
      modifies this`relayActive, this`relaySessionId, this`connections, this`seenCache, this`scanCallback,
               this`scanHeard
      modifies this`tableOwner, this`activating, this`scans, this`arming, this`teardowns, this`severed
      modifies this`intervals, this`scanRefreshTimer
      ensures Now() == Apply(old(Now()), t)
    {
      hide DoTurnOn, DoTurnOff, DoInitialized, DoScanStopped, IssueScan, DoIntervalSet, DoTeardown;
      match t
      case TurnOn => ActivateRelay();
      case Initialized(n, ok) => if n in activating { ResumeActivation(n, ok); }
      case RefreshScan(n) => if n in intervals && relayActive && n == relaySessionId { IssueScanFor(n); }
      case ScanStopped(n, started) => if n in scans { ResumeIssueScan(n, started); }
      case IntervalSet(n) => if n in arming && n !in scans { StartInterval(n); }
      case TurnOff(plugin) => DeactivateRelay(plugin);
      case TeardownResumes(n) => if n in teardowns { ResumeDeactivation(n); }
    }

    /** The HELLO timer of an attempt fires, or its own HELLO cannot be sent. */
    method RejectHello(c: Conn)
      requires c in attempts && attempts[c] == AwaitingHello
      modifies this`identifyResolvers, this`attempts
      ensures PeersNow() == DoHelloFails(old(PeersNow()), c)
    {
      identifyResolvers := identifyResolvers - {c};
      attempts := attempts[c := Failed];
    }

    /** The second half of `cleanupConnection`. */
    method ResumeCleanup(c: Conn)
      requires c in cleaning
      modifies this`cleaning, this`severed
      ensures PeersNow() == DoCleanup(old(PeersNow()), c)
    {
      cleaning := cleaning - {c};
      severed := Some(c.device);
    }

    method OnRadio(t: Turn)
      requires t.ScanResult? || t.Dropped? || t.Hello?
      modifies this`connections, this`peerNodeIds, this`identifyResolvers, this`recordsMade, this`attempts
      ensures PeersNow() == OnPeers(SessionNow(), old(PeersNow()), t)
    {
      hide DoScanResult, DoDropped, DoHello;
      NothingRegistered(SessionNow(), PeersNow(), t);
      match t
      case ScanResult(n, d) => if n in scanHeard { HandleScanResult(n, d); }
      case Dropped(c) => HandlePeerDisconnected(c);
      case Hello(via, peer) => if via in subscribed { HandleHello(via, peer); }
    }

    method OnAttempt(t: Turn)
      requires t.AttemptResumes? || t.HelloFails? || t.CleanupResumes?
      modifies this`connections, this`identifyResolvers, this`attempts, this`subscribed, this`cleaning, this`severed
      ensures PeersNow() == OnPeers(SessionNow(), old(PeersNow()), t)
    {
      hide DoAttempt, DoHelloFails, DoCleanup;
      NothingRegistered(SessionNow(), PeersNow(), t);
      match t
      case AttemptResumes(c, ok) => if c in attempts && attempts[c] != AwaitingHello { ResumeConnectToPeer(c, ok); }
      case HelloFails(c) => if c in attempts && attempts[c] == AwaitingHello { RejectHello(c); }
      case CleanupResumes(c) => if c in cleaning { ResumeCleanup(c); }
    }
  }

  lemma PeerTurn(w: World, t: Turn)
    ensures t.ScanResult? || t.Dropped? || t.Hello? || t.AttemptResumes? || t.HelloFails? || t.CleanupResumes? ==>
              Apply(w, t) == w.(peers := OnPeers(w.session, w.peers, t))
  {
  }

  // An event that nothing waits for changes nothing.
  lemma NothingRegistered(s: Session, p: Peers, t: Turn)
    ensures t.ScanResult? && t.session !in s.heard ==> DoScanResult(s, p, t.session, t.device) == p
    ensures t.Hello? && t.via !in p.subscribed ==> DoHello(p, t.via, t.peer) == p
    ensures t.AttemptResumes? && t.conn in p.attempts && p.attempts[t.conn] == AwaitingHello ==>
              DoAttempt(s, p, t.conn, t.ok) == p
    ensures t.HelloFails? && !(t.conn in p.attempts && p.attempts[t.conn] == AwaitingHello) ==>
              DoHelloFails(p, t.conn) == p
    ensures t.CleanupResumes? && t.conn !in p.cleaning ==> DoCleanup(p, t.conn) == p
  {
  }
}
