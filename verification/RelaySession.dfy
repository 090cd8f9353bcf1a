/**
 * Sessions of the phone-to-phone relay that runs both Bluetooth roles at once.
 *
 * Every `await` of the client is a step boundary: a state holds the module's variables together with
 * the bag of continuations still to run, an `Event` is one turn of the event loop, and `Run` is any
 * interleaving of activations, deactivations, radio events, timers and resumed continuations.
 */
module RelaySession {
  import opened ConnectionTables
  import opened Wrappers

  // ---------------------------------------------------------------- states

  /** What a call of `connectToPeer` waits for. */
  datatype Stage =
    | Connect | Discover | Notify  // a native call through the GATT queue
    | Hello                        // the peer's HELLO, its timer or a failed send
    | Identified | Rejected        // the HELLO promise is settled, its continuation queued

  /** What a call of `deactivateRelay` waits for. */
  datatype Closing = StopScan | StopAdvertising | RemoveService | Disconnect(rest: Table) | RemoveListeners

  /** What the radio has been asked for and not yet asked to stop. */
  datatype Native = Listener(kind: nat, session: nat) | Service | Advertising | Scanning

  /**
   * An activation makes these calls in order: six `addListener`, `initialize` as central and then as
   * peripheral, `addGattService`, `startAdvertising`, `startScan`.
   */
  const LISTENERS := 6
  const ACTIVATION_CALLS := 11

  function Started(call: nat, session: nat): set<Native> {
    if call < LISTENERS then {Listener(call, session)}
    else if call == 8 then {Service}
    else if call == 9 then {Advertising}
    else if call == 10 then {Scanning}
    else {}
  }

  datatype Core = Core(
    active: bool,        // relayActive
    session: nat,        // relaySessionId
    owner: nat,          // the session whose activation made the connection table
    seen: Option<nat>,   // seenCache: null, or the session that made it
    queue: Option<nat>)  // gattQueue, likewise
  {
    /** A session is live while the current table is its own and not yet torn down. */
    predicate Live() {
      owner == session && seen.Some?
    }
  }

  datatype Links = Links(
    table: Table,                  // connections
    peers: map<Conn, NodeId>,      // peerNodeId of the records that have one
    armed: set<Conn>,              // records whose identifyResolvers are set
    made: nat,                     // records made so far
    connecting: map<Conn, Stage>,  // suspended calls of connectToPeer
    timers: set<Conn>,             // running inbound HELLO timers
    dropped: Option<DeviceId>)     // the device the last step told the radio to disconnect

  datatype Radio = Radio(
    activating: map<nat, nat>,      // suspended activations, by session: the call awaited
    deactivating: map<nat, Closing>,
    issued: nat,                    // native calls made by the latest activation
    up: set<Native>)

  datatype State = State(core: Core, links: Links, radio: Radio)

  const INITIAL := State(Core(false, 0, 0, None, None),
                         Links([], map[], {}, 0, map[], {}, None),
                         Radio(map[], map[], 0, {}))

  /** One turn of the event loop. `via` is the session a listener was registered for. */
  datatype Event =
    | Activate
    | ActivationResumes(session: nat, ok: bool)
    | Deactivate(plugin: bool)
    | DeactivationResumes(token: nat)
    | DeviceScanned(via: nat, device: DeviceId)
    | DeviceDisconnected(via: nat, device: DeviceId)
    | CentralConnected(via: nat, device: DeviceId)
    | CentralDisconnected(via: nat, device: DeviceId)
    | HelloReceived(via: nat, device: DeviceId, from: Direction, peer: NodeId)
    | ConnectResumes(conn: Conn, ok: bool)
    | HelloFails(conn: Conn)
    | TimerFires(conn: Conn)

  // ---------------------------------------------------------------- activation and deactivation

  /** The call an activation awaits next; `latest` when no other activation has begun since. */
  function Issue(r: Radio, session: nat, call: nat, latest: bool): Radio {
    Radio(r.activating[session := call], r.deactivating, if latest then call + 1 else r.issued,
          r.up + Started(call, session))
  }

  function DoActivate(s: State): State {
    var n := s.core.session + 1;
    State(Core(true, n, n, Some(n), Some(n)), s.links.(table := []), Issue(s.radio, n, 0, true))
  }

  function ActivationStep(s: State, session: nat, ok: bool): State
    requires session in s.radio.activating
  {
    var call := s.radio.activating[session];
    var latest := session == s.core.session;
    var done := s.(radio := s.radio.(activating := s.radio.activating - {session}));
    if !ok then done.(core := s.core.(active := s.core.active && !latest))
    else if call + 1 >= LISTENERS && (!latest || call + 1 == ACTIVATION_CALLS) then done
    else s.(radio := Issue(s.radio, session, call + 1, latest))
  }

  function ClearAll(s: State): State {
    s.(core := s.core.(seen := None, queue := None), links := s.links.(table := []))
  }

  function DoDeactivate(s: State, plugin: bool): State {
    var n := s.core.session + 1;
    var off := s.(core := s.core.(active := false, session := n));
    if plugin then off.(radio := Close(s.radio, n, StopScan, s.radio.up - {Scanning})) else ClearAll(off)
  }

  function Close(r: Radio, token: nat, awaited: Closing, up: set<Native>): Radio {
    r.(deactivating := r.deactivating[token := awaited], up := up)
  }

  function NoListeners(up: set<Native>): set<Native> {
    set n | n in up && !n.Listener?
  }

  function AfterInbound(t: Table): Table {
    if t == [] || t[0].direction == Outbound then t else AfterInbound(t[1..])
  }

  function DisconnectNext(s: State, token: nat, rest: Table): State {
    var left := AfterInbound(rest);
    if left == [] then s.(radio := Close(s.radio, token, RemoveListeners, NoListeners(s.radio.up)))
    else s.(links := s.links.(dropped := Some(left[0].device)),
            radio := Close(s.radio, token, Disconnect(left[1..]), s.radio.up))
  }

  function DeactivationStep(s: State, token: nat): State
    requires token in s.radio.deactivating
  {
    var done := s.(radio := s.radio.(deactivating := s.radio.deactivating - {token}));
    var up := s.radio.up;
    if token != s.core.session then done
    else
      match s.radio.deactivating[token]
      case StopScan => s.(radio := Close(s.radio, token, StopAdvertising, up - {Advertising}))
      case StopAdvertising => s.(radio := Close(s.radio, token, RemoveService, up - {Service}))
      case RemoveService => DisconnectNext(s, token, s.links.table)
      case Disconnect(rest) => DisconnectNext(s, token, rest)
      case RemoveListeners => ClearAll(done)
  }

  // ---------------------------------------------------------------- connections

  function Reserve(l: Links, c: Conn): Links {
    l.(table := l.table + [c], made := l.made + 1)
  }

  function Scanned(core: Core, l: Links, via: nat, d: DeviceId): Links {
    if !core.active || via != core.session || Find(l.table, d).Some? ||
       Count(l.table, Outbound) >= MAX_CONNECTIONS then l
    else
      var c := Conn(l.made, d, Outbound, via);
      Reserve(l, c).(connecting := l.connecting[c := Connect])
  }

  function Accepted(core: Core, l: Links, via: nat, d: DeviceId): Links {
    if !core.active || via != core.session || Find(l.table, d).Some? then l
    else
      var c := Conn(l.made, d, Inbound, via);
      Reserve(l.(table := EvictOldestInboundIfFull(l.table)), c).(timers := l.timers + {c}, armed := l.armed + {c})
  }

  function Dropped(core: Core, l: Links, via: nat, d: DeviceId, direction: Direction): Links {
    var found := Find(l.table, d);
    if via == core.session && found.Some? && found.value.direction == direction then
      l.(table := Minus(l.table, found.value))
    else l
  }

  /** A HELLO packet completed on a tracked device; the listener that delivers it has no session guard. */
  function Greeted(l: Links, d: DeviceId, from: Direction, peer: NodeId): Links {
    var found := Find(l.table, d);
    if found.None? || found.value.direction != from || found.value in l.peers || found.value !in l.armed then l
    else
      var c := found.value;
      var known := l.(peers := l.peers[c := peer], armed := l.armed - {c});
      if from == Inbound then known.(timers := l.timers - {c})
      else known.(connecting := l.connecting[c := Identified])
  }

  function Cleanup(l: Links, c: Conn): Links {
    var ended := l.(connecting := l.connecting - {c});
    if c !in l.table then ended
    else ended.(table := Minus(l.table, c), dropped := Some(c.device))
  }

  function ResumeConnect(core: Core, l: Links, c: Conn, ok: bool): Links
    requires c in l.connecting
  {
    match l.connecting[c]
    case Hello => l  // only its HELLO, its timer or its failed send wakes it
    case Rejected => Cleanup(l, c)
    case stage =>
      if (!ok && stage != Identified) || c.session != core.session then Cleanup(l, c)
      else
        match stage
        case Connect => l.(connecting := l.connecting[c := Discover])
        case Discover => l.(connecting := l.connecting[c := Notify])
        case Notify => l.(connecting := l.connecting[c := Hello], armed := l.armed + {c})
        case _ => l.(connecting := l.connecting - {c})
  }

  /** The HELLO timer fires, or our own HELLO could not be sent. */
  function FailHello(l: Links, c: Conn): Links {
    if c in l.connecting && l.connecting[c] == Hello then
      l.(connecting := l.connecting[c := Rejected], armed := l.armed - {c})
    else l
  }

  function FireTimer(core: Core, l: Links, c: Conn): Links {
    if c !in l.timers then l
    else
      var fired := l.(timers := l.timers - {c});
      if c.session == core.session && c in l.table then fired.(table := Minus(l.table, c)) else fired
  }

  // ---------------------------------------------------------------- runs

  /** Only a registered listener is called. */
  predicate Heard(r: Radio, kind: nat, via: nat) {
    Listener(kind, via) in r.up
  }

  /** The steps that touch connections only. */
  function OnLinks(core: Core, l: Links, radio: Radio, e: Event): Links {
    match e
    case DeviceScanned(via, d) => if Heard(radio, 0, via) then Scanned(core, l, via, d) else l
    case DeviceDisconnected(via, d) => if Heard(radio, 1, via) then Dropped(core, l, via, d, Outbound) else l
    case CentralConnected(via, d) => if Heard(radio, 3, via) then Accepted(core, l, via, d) else l
    case CentralDisconnected(via, d) => if Heard(radio, 4, via) then Dropped(core, l, via, d, Inbound) else l
    case HelloReceived(via, d, from, peer) =>
      if Heard(radio, if from == Outbound then 2 else 5, via) then Greeted(l, d, from, peer) else l
    case ConnectResumes(c, ok) => if c in l.connecting then ResumeConnect(core, l, c, ok) else l
    case HelloFails(c) => FailHello(l, c)
    case TimerFires(c) => FireTimer(core, l, c)
    case _ => l
  }

  function Apply(s: State, e: Event): State {
    match e
    case Activate => DoActivate(s)
    case ActivationResumes(n, ok) => if n in s.radio.activating then ActivationStep(s, n, ok) else s
    case Deactivate(plugin) => DoDeactivate(s, plugin)
    case DeactivationResumes(n) => if n in s.radio.deactivating then DeactivationStep(s, n) else s
    case _ => s.(links := OnLinks(s.core, s.links, s.radio, e))
  }

  function Step(s: State, e: Event): State {
    Apply(s.(links := s.links.(dropped := None)), e)
  }

  function Run(events: seq<Event>): State {
    if events == [] then INITIAL else Step(Run(events[..|events| - 1]), events[|events| - 1])
  }

  // ---------------------------------------------------------------- the invariant

  /** Table, seen cache and GATT queue always come from one and the same activation. */
  ghost predicate OneOwner(core: Core, t: Table) {
    && core.owner <= core.session
    && core.seen == core.queue
    && (if core.seen.Some? then core.seen.value == core.owner else t == [])
    && (core.active ==> core.Live())
    && (core.Live() ==> core.session > 0)
  }

  ghost predicate Bounded(t: Table) {
    && DistinctDevices(t)
    && Count(t, Outbound) <= MAX_CONNECTIONS
    && Count(t, Inbound) <= MAX_INBOUND_CONNECTIONS
  }

  /** Every continuation that knows a record was started by the session that made it. */
  ghost predicate Known(core: Core, l: Links) {
    && (forall c :: c in l.table ==> c.id < l.made && c.session == core.owner)
    && (forall c :: c in l.armed ==> c.id < l.made)
    && (forall c :: c in l.peers ==> c.id < l.made)
    && (forall c :: c in l.connecting ==>
          c.id < l.made && c.direction == Outbound && c.session <= core.session &&
          (c.session == core.session ==> core.Live()))
    && (forall c :: c in l.timers ==>
          c.id < l.made && c.direction == Inbound && c.session <= core.session &&
          (c.session == core.session ==> core.Live()))
  }

  /** A promise of a HELLO is pending, or kept. */
  ghost predicate Pending(l: Links) {
    && (forall c :: c in l.armed && c.direction == Outbound ==> c in l.connecting && l.connecting[c] == Hello)
    && (forall c :: c in l.connecting && l.connecting[c] == Identified ==> c in l.peers)
  }

  /** A tracked peer is identified, or something still pending will identify or drop it. */
  ghost predicate NoLeak(l: Links) {
    forall c :: c in l.table && c !in l.peers ==> if c.direction == Outbound then c in l.connecting else c in l.timers
  }

  /** What the live session has started is still running: six listeners, service, advertising, scan. */
  ghost predicate RadioKept(core: Core, r: Radio) {
    && (forall n :: n in r.activating ==> n <= core.session)
    && (forall n :: n in r.deactivating ==> n <= core.session)
    && (core.session in r.activating ==> core.Live() && r.issued == r.activating[core.session] + 1)
    && (core.session in r.deactivating ==> !core.Live())
    && (core.Live() ==> forall k: nat :: k < r.issued ==> Started(k, core.session) <= r.up)
    && (forall n: nat, k: nat :: Listener(k, n) in r.up ==> n <= core.session)
  }

  ghost predicate Inv(s: State) {
    && OneOwner(s.core, s.links.table)
    && Bounded(s.links.table)
    && Known(s.core, s.links)
    && Pending(s.links)
    && (s.core.Live() ==> NoLeak(s.links))
    && RadioKept(s.core, s.radio)
  }

  lemma ActivateKeeps(s: State)
    requires Inv(s)
    ensures Inv(DoActivate(s))
  {
  }

  lemma ResumeActivationKeeps(s: State, n: nat, ok: bool)
    requires Inv(s) && n in s.radio.activating
    ensures Inv(ActivationStep(s, n, ok))
  {
    hide Bounded, NoLeak, Pending;
  }

  lemma DeactivateKeeps(s: State, plugin: bool)
    requires Inv(s)
    ensures Inv(DoDeactivate(s, plugin))
  {
    hide Started;
  }

  lemma ResumeDeactivationKeeps(s: State, n: nat)
    requires Inv(s) && n in s.radio.deactivating
    ensures Inv(DeactivationStep(s, n))
  {
    hide Bounded, DisconnectNext, Started, NoLeak;
    assert Bounded([]) by {
      EmptyIsBounded();
    }
    if n == s.core.session && s.radio.deactivating[n] == RemoveService {
      DisconnectNextKeeps(s, n, s.links.table);
    } else if n == s.core.session && s.radio.deactivating[n].Disconnect? {
      DisconnectNextKeeps(s, n, s.radio.deactivating[n].rest);
    }
  }

  lemma EmptyIsBounded()
    ensures Bounded([])
  {
  }

  lemma DisconnectNextKeeps(s: State, n: nat, rest: Table)
    requires Inv(s) && n in s.radio.deactivating && n == s.core.session
    ensures Inv(DisconnectNext(s, n, rest))
  {
    hide Bounded, AfterInbound, Started;
  }

  // ---- connection steps

  ghost predicate LinksInv(core: Core, l: Links) {
    OneOwner(core, l.table) && Bounded(l.table) && Known(core, l) && Pending(l) && (core.Live() ==> NoLeak(l))
  }

  lemma AppendBounded(t: Table, c: Conn)
    requires Bounded(t) && Find(t, c.device).None?
    requires Count(t, c.direction) < (if c.direction == Outbound then MAX_CONNECTIONS else MAX_INBOUND_CONNECTIONS)
    ensures Bounded(t + [c])
  {
    hide Find, Count;
    CountSnoc(t, c, Outbound);
    CountSnoc(t, c, Inbound);
  }

  lemma ScannedKeeps(core: Core, l: Links, via: nat, d: DeviceId)
    requires LinksInv(core, l)
    ensures LinksInv(core, Scanned(core, l, via, d))
  {
    hide Bounded, Find;
    if core.active && via == core.session && Find(l.table, d).None? && Count(l.table, Outbound) < MAX_CONNECTIONS {
      AppendBounded(l.table, Conn(l.made, d, Outbound, via));
    }
  }

  lemma EvictedKeeps(core: Core, l: Links)
    requires LinksInv(core, l)
    ensures var t := EvictOldestInboundIfFull(l.table);
            LinksInv(core, l.(table := t)) && Count(t, Inbound) < MAX_INBOUND_CONNECTIONS
  {
    hide LinksInv;
    TableIsDistinct(core, l);
    EvictionIsOldestFirst(l.table);
    var i := FirstInbound(l.table);
    if Count(l.table, Inbound) >= MAX_INBOUND_CONNECTIONS && i < |l.table| {
      RemovedKeeps(core, l, l.table[i]);
    }
    InboundBound(core, l);
  }

  lemma TableIsDistinct(core: Core, l: Links)
    requires LinksInv(core, l)
    ensures DistinctDevices(l.table)
  {
  }

  lemma InboundBound(core: Core, l: Links)
    requires LinksInv(core, l)
    ensures Count(l.table, Inbound) <= MAX_INBOUND_CONNECTIONS
  {
  }

  lemma StillUnknown(t: Table, d: DeviceId)
    requires Find(t, d).None?
    ensures Find(EvictOldestInboundIfFull(t), d).None?
  {
  }

  lemma AcceptedKeeps(core: Core, l: Links, via: nat, d: DeviceId)
    requires LinksInv(core, l)
    ensures LinksInv(core, Accepted(core, l, via, d))
  {
    hide Bounded, Find, EvictOldestInboundIfFull;
    if core.active && via == core.session && Find(l.table, d).None? {
      var t := EvictOldestInboundIfFull(l.table);
      EvictedKeeps(core, l);
      StillUnknown(l.table, d);
      AppendBounded(t, Conn(l.made, d, Inbound, via));
    }
  }

  lemma RemovedKeeps(core: Core, l: Links, c: Conn)
    requires LinksInv(core, l)
    ensures LinksInv(core, l.(table := Minus(l.table, c)))
  {
    hide Count, DistinctDevices;
    MinusKeepsShape(l.table, c);
  }

  lemma DroppedKeeps(core: Core, l: Links, via: nat, d: DeviceId, direction: Direction)
    requires LinksInv(core, l)
    ensures LinksInv(core, Dropped(core, l, via, d, direction))
  {
    hide LinksInv;
    var found := Find(l.table, d);
    if found.Some? {
      RemovedKeeps(core, l, found.value);
    }
  }

  lemma GreetedKeeps(core: Core, l: Links, d: DeviceId, from: Direction, peer: NodeId)
    requires LinksInv(core, l)
    ensures LinksInv(core, Greeted(l, d, from, peer))
  {
    hide Bounded, OneOwner;
  }

  lemma ForgetAttempt(core: Core, l: Links, c: Conn, d: Option<DeviceId>)
    requires LinksInv(core, l) && c !in l.table && c in l.connecting && l.connecting[c] != Hello
    ensures LinksInv(core, l.(connecting := l.connecting - {c}, dropped := d))
  {
    hide Bounded, OneOwner;
  }

  lemma ForgetTimer(core: Core, l: Links, c: Conn)
    requires LinksInv(core, l) && (core.Live() ==> c !in l.table)
    ensures LinksInv(core, l.(timers := l.timers - {c}))
  {
    hide Bounded, OneOwner;
  }

  lemma CleanupKeeps(core: Core, l: Links, c: Conn)
    requires LinksInv(core, l) && c in l.connecting && l.connecting[c] != Hello
    ensures LinksInv(core, Cleanup(l, c))
  {
    hide LinksInv;
    if c in l.table {
      RemovedKeeps(core, l, c);
      ForgetAttempt(core, l.(table := Minus(l.table, c)), c, Some(c.device));
    } else {
      ForgetAttempt(core, l, c, l.dropped);
    }
  }

  lemma ResumeConnectKeeps(core: Core, l: Links, c: Conn, ok: bool)
    requires LinksInv(core, l) && c in l.connecting
    ensures LinksInv(core, ResumeConnect(core, l, c, ok))
  {
    hide Bounded, OneOwner, Cleanup;
    if l.connecting[c] != Hello {
      CleanupKeeps(core, l, c);
    }
  }

  lemma FailHelloKeeps(core: Core, l: Links, c: Conn)
    requires LinksInv(core, l)
    ensures LinksInv(core, FailHello(l, c))
  {
    hide Bounded, OneOwner;
  }

  lemma StaleIsUntracked(core: Core, l: Links, c: Conn)
    requires LinksInv(core, l) && core.Live() && c.session != core.session
    ensures c !in l.table
  {
  }

  lemma FireTimerKeeps(core: Core, l: Links, c: Conn)
    requires LinksInv(core, l)
    ensures LinksInv(core, FireTimer(core, l, c))
  {
    hide LinksInv;
    if c in l.timers {
      if c.session == core.session && c in l.table {
        RemovedKeeps(core, l, c);
        ForgetTimer(core, l.(table := Minus(l.table, c)), c);
      } else {
        if core.Live() && c in l.table {
          StaleIsUntracked(core, l, c);
        }
        ForgetTimer(core, l, c);
      }
    }
  }

  lemma OnLinksKeeps(core: Core, l: Links, radio: Radio, e: Event)
    requires LinksInv(core, l)
    ensures LinksInv(core, OnLinks(core, l, radio, e))
  {
    hide LinksInv, Scanned, Accepted, Dropped, Greeted, ResumeConnect, FailHello, FireTimer;
    match e {
      case DeviceScanned(via, d) => ScannedKeeps(core, l, via, d);
      case DeviceDisconnected(via, d) => DroppedKeeps(core, l, via, d, Outbound);
      case CentralConnected(via, d) => AcceptedKeeps(core, l, via, d);
      case CentralDisconnected(via, d) => DroppedKeeps(core, l, via, d, Inbound);
      case HelloReceived(via, d, from, peer) => GreetedKeeps(core, l, d, from, peer);
      case ConnectResumes(c, ok) => if c in l.connecting { ResumeConnectKeeps(core, l, c, ok); }
      case HelloFails(c) => FailHelloKeeps(core, l, c);
      case TimerFires(c) => FireTimerKeeps(core, l, c);
      case _ =>
    }
  }

  lemma ApplyKeeps(s: State, e: Event)
    requires Inv(s)
    ensures Inv(Apply(s, e))
  {
    hide OneOwner, Bounded, Known, Pending, NoLeak, RadioKept, OnLinks;
    hide DoActivate, ActivationStep, DoDeactivate, DeactivationStep;
    match e {
      case Activate => ActivateKeeps(s);
      case ActivationResumes(n, ok) => if n in s.radio.activating { ResumeActivationKeeps(s, n, ok); }
      case Deactivate(plugin) => DeactivateKeeps(s, plugin);
      case DeactivationResumes(n) => if n in s.radio.deactivating { ResumeDeactivationKeeps(s, n); }
      case _ => OnLinksKeeps(s.core, s.links, s.radio, e);
    }
  }

  lemma StepKeeps(s: State, e: Event)
    requires Inv(s)
    ensures Inv(Step(s, e))
  {
    hide OneOwner, Bounded, RadioKept, Apply;
    ApplyKeeps(s.(links := s.links.(dropped := None)), e);
  }

  lemma InitialInv()
    ensures Inv(INITIAL)
  {
  }

  // Every interleaving keeps the invariant.
  lemma {:induction false} RunsKeepInvariant(events: seq<Event>)
    ensures Inv(Run(events))
  {
    hide Inv, Step;
    InitialInv();
    if events != [] {
      RunsKeepInvariant(events[..|events| - 1]);
      StepKeeps(Run(events[..|events| - 1]), events[|events| - 1]);
    }
  }

  // ---------------------------------------------------------------- what runs guarantee

  // While the relay is active, the table, the seen cache and the GATT queue are the current session's
  // own, every tracked record was reserved by it, and neither direction exceeds its bound.
  lemma ActiveSessionOwnsItsState(events: seq<Event>)
    ensures var s := Run(events);
            && Count(s.links.table, Outbound) <= 7
            && Count(s.links.table, Inbound) <= 7
            && DistinctDevices(s.links.table)
            && (s.core.active ==>
                  && s.core.owner == s.core.session
                  && s.core.seen == Some(s.core.session) && s.core.queue == Some(s.core.session)
                  && forall c :: c in s.links.table ==> c.session == s.core.session)
            && (s.links.table != [] ==> s.core.seen.Some? && s.core.queue.Some?)
  {
    hide Run;
    RunsKeepInvariant(events);
  }

  /** Steps of anything another session started: its awaits, its timers, its listeners. */
  predicate Stale(s: State, e: Event) {
    match e
    case Activate => false
    case Deactivate(_) => false
    case ActivationResumes(n, _) => n != s.core.session
    case DeactivationResumes(n) => n != s.core.session
    case DeviceScanned(via, _) => via != s.core.session
    case DeviceDisconnected(via, _) => via != s.core.session
    case CentralConnected(via, _) => via != s.core.session
    case CentralDisconnected(via, _) => via != s.core.session
    case HelloReceived(via, _, _, _) => via != s.core.session
    case ConnectResumes(c, _) => c.session != s.core.session
    case HelloFails(c) => c.session != s.core.session
    case TimerFires(c) => c.session != s.core.session
  }

  /** Two states look the same to the live session: its variables, its records, its continuations. */
  ghost predicate SameForSession(a: State, b: State) {
    && a.core == b.core
    && a.links.table == b.links.table
    && a.links.peers == b.links.peers
    && (forall c :: c in a.links.table ==> (c in a.links.armed <==> c in b.links.armed))
    && (forall c :: c in a.links.table ==> (c in a.links.timers <==> c in b.links.timers))
    && (forall c :: c in a.links.table ==> (c in a.links.connecting <==> c in b.links.connecting))
    && (forall c :: c in a.links.table && c in a.links.connecting ==> a.links.connecting[c] == b.links.connecting[c])
    && a.radio.issued == b.radio.issued
    && (forall k: nat :: k < a.radio.issued ==> Started(k, a.core.session) <= b.radio.up)
  }

  /** A HELLO reaches a tracked record of its direction that has no peer yet and waits for one. */
  predicate Identifies(s: State, e: Event) {
    && e.HelloReceived?
    && Heard(s.radio, if e.from == Outbound then 2 else 5, e.via)
    && var found := Find(s.links.table, e.device);
       && found.Some? && found.value.direction == e.from
       && found.value !in s.links.peers && found.value in s.links.armed
  }

  /** The records other than `c` look the same in both states. */
  ghost predicate OthersKept(a: Links, b: Links, c: Conn) {
    && (forall x :: x != c ==> (x in a.peers <==> x in b.peers) && (x in a.armed <==> x in b.armed))
    && (forall x :: x != c ==> (x in a.timers <==> x in b.timers) && (x in a.connecting <==> x in b.connecting))
    && (forall x :: x != c && x in a.peers && x in b.peers ==> a.peers[x] == b.peers[x])
    && (forall x :: x != c && x in a.connecting && x in b.connecting ==> a.connecting[x] == b.connecting[x])
  }

  // Nothing an older session left behind inserts, deletes or clears an entry of a live one, issues a
  // native disconnect, or takes down its listeners, service, advertising or scan. Its two data listeners
  // have no session guard: a HELLO they deliver changes a live session exactly when the device's tracked
  // record of that direction waits for one, and then identifies that record and touches no other.
  lemma StaleStepsAreInvisible(events: seq<Event>, e: Event)
    requires Run(events).core.Live() && Stale(Run(events), e)
    ensures var s, n := Run(events), Step(Run(events), e);
            && n.core == s.core && n.links.table == s.links.table && n.links.dropped == None
            && n.radio.issued == s.radio.issued
            && (forall k: nat :: k < s.radio.issued ==> Started(k, s.core.session) <= n.radio.up)
            && (SameForSession(s, n) <==> !Identifies(s, e))
            && (Identifies(s, e) ==>
                  var c := Find(s.links.table, e.device).value;
                  && n.radio == s.radio
                  && c in n.links.peers && n.links.peers[c] == e.peer && OthersKept(s.links, n.links, c))
  {
    hide Run, Step, Identifies, SameForSession, OthersKept, Find;
    RunsKeepInvariant(events);
    if e.HelloReceived? {
      StaleHello(Run(events), e);
    } else {
      StaleStep(Run(events), e);
    }
  }

  lemma StaleStep(s: State, e: Event)
    requires Inv(s) && s.core.Live() && Stale(s, e) && !e.HelloReceived?
    ensures SameForSession(s, Step(s, e)) && Step(s, e).links.dropped == None && !Identifies(s, e)
    ensures var n := Step(s, e);
            && n.core == s.core && n.links.table == s.links.table && n.radio.issued == s.radio.issued
            && forall k: nat :: k < s.radio.issued ==> Started(k, s.core.session) <= n.radio.up
  {
    hide Bounded, NoLeak, Pending, Started, DistinctDevices, Count;
  }

  lemma StaleHello(s: State, e: Event)
    requires Inv(s) && s.core.Live() && e.HelloReceived?
    ensures var n := Step(s, e);
            && n.core == s.core && n.radio == s.radio && n.links.table == s.links.table && n.links.dropped == None
            && (forall k: nat :: k < s.radio.issued ==> Started(k, s.core.session) <= n.radio.up)
            && (SameForSession(s, n) <==> !Identifies(s, e))
            && (Identifies(s, e) ==>
                  var c := Find(s.links.table, e.device).value;
                  c in n.links.peers && n.links.peers[c] == e.peer && OthersKept(s.links, n.links, c))
  {
    hide Bounded, NoLeak, Pending, Started, Known, OneOwner, Minus, Count;
  }

  // A run in which a data listener of session 1 delivers the HELLO that session 3 waits for.
  lemma StaleHelloIdentifies(d: DeviceId, peer: NodeId)
    ensures var c := Conn(0, d, Outbound, 3);
            var events := [Activate] + [ActivationResumes(1, true)] + [ActivationResumes(1, true)] +
                          [Deactivate(true)] + [Activate] + [DeviceScanned(3, d)] +
                          [ConnectResumes(c, true)] + [ConnectResumes(c, true)] + [ConnectResumes(c, true)];
            var s, e := Run(events), HelloReceived(1, d, Outbound, peer);
            && s.core.Live() && Stale(s, e) && Identifies(s, e)
            && c in Step(s, e).links.peers && Step(s, e).links.peers[c] == peer
  {
    hide Run, Step, Stale, Identifies;
    var events := TwoSessions();
    events := Greeting(events, d);
    GreetedLate(Run(events), d, peer);
  }

  lemma TwoSessions() returns (events: seq<Event>)
    ensures events == [Activate] + [ActivationResumes(1, true)] + [ActivationResumes(1, true)] +
                      [Deactivate(true)] + [Activate]
    ensures var s := Run(events);
            && s.core == Core(true, 3, 3, Some(3), Some(3))
            && s.links.table == [] && s.links.made == 0 && s.links.peers == map[]
            && Listener(2, 1) in s.radio.up && Listener(0, 3) in s.radio.up
  {
    hide Run;
    events := [Activate];
    RunStart();
    assert [] + [Activate] == [Activate];
    RunSnoc([], Activate);
    events := Then(events, ActivationResumes(1, true));
    events := Then(events, ActivationResumes(1, true));
    events := Then(events, Deactivate(true));
    events := Then(events, Activate);
  }

  lemma Greeting(past: seq<Event>, d: DeviceId) returns (events: seq<Event>)
    requires var s := Run(past);
             && s.core == Core(true, 3, 3, Some(3), Some(3))
             && s.links.table == [] && s.links.made == 0 && s.links.peers == map[]
             && Listener(2, 1) in s.radio.up && Listener(0, 3) in s.radio.up
    ensures var c := Conn(0, d, Outbound, 3);
            && events == past + [DeviceScanned(3, d)] +
                         [ConnectResumes(c, true)] + [ConnectResumes(c, true)] + [ConnectResumes(c, true)]
            && var s := Run(events);
               && s.core == Core(true, 3, 3, Some(3), Some(3)) && s.radio == Run(past).radio
               && s.links.table == [c] && c in s.links.armed && s.links.peers == map[]
  {
    hide Run;
    var c := Conn(0, d, Outbound, 3);
    events := Then(past, DeviceScanned(3, d));
    events := Then(events, ConnectResumes(c, true));
    events := Then(events, ConnectResumes(c, true));
    events := Then(events, ConnectResumes(c, true));
  }

  lemma GreetedLate(s: State, d: DeviceId, peer: NodeId)
    requires var c := Conn(0, d, Outbound, 3);
             && s.core == Core(true, 3, 3, Some(3), Some(3)) && Listener(2, 1) in s.radio.up
             && s.links.table == [c] && c in s.links.armed && s.links.peers == map[]
    ensures var c, e := Conn(0, d, Outbound, 3), HelloReceived(1, d, Outbound, peer);
            && s.core.Live() && Stale(s, e) && Identifies(s, e)
            && c in Step(s, e).links.peers && Step(s, e).links.peers[c] == peer
  {
  }

  lemma RunStart()
    ensures Run([]) == INITIAL
  {
  }

  lemma Then(past: seq<Event>, e: Event) returns (all: seq<Event>)
    ensures all == past + [e] && Run(all) == Step(Run(past), e)
  {
    all := past + [e];
    RunSnoc(past, e);
  }

  // A resumed connection attempt, or an inbound timer, removes nothing but its own record, even when
  // the same device is tracked again by a newer one.
  lemma OwnRecordOnly(s: State, e: Event, c: Conn)
    requires e == TimerFires(c) || e == HelloFails(c) || exists ok :: e == ConnectResumes(c, ok)
    ensures var t := Step(s, e).links.table; t == s.links.table || t == Minus(s.links.table, c)
  {
    hide Minus, Find, Count;
  }

  // A native disconnect is only ever issued for a device that no live session is tracking.
  lemma NoLiveLinkIsSevered(events: seq<Event>, e: Event)
    ensures var now := Run(events + [e]);
            now.links.dropped.Some? && now.core.Live() ==> Find(now.links.table, now.links.dropped.value).None?
  {
    hide Run, Step;
    RunsKeepInvariant(events);
    assert (events + [e])[..|events|] == events;
    RunsKeepInvariant(events + [e]);
    RunSnoc(events, e);
    NoneSevered(Run(events), e);
  }

  lemma RunSnoc(events: seq<Event>, e: Event)
    ensures Run(events + [e]) == Step(Run(events), e)
  {
    assert (events + [e])[..|events|] == events;
  }

  lemma NoneSevered(s: State, e: Event)
    requires Inv(s)
    ensures var now := Step(s, e);
            now.links.dropped.Some? && now.core.Live() ==> Find(now.links.table, now.links.dropped.value).None?
  {
    hide Known, Pending, NoLeak, Started, Count, Minus, Find, DistinctDevices;
    if e.ConnectResumes? && e.conn in s.links.table {
      NoTwin(s.links.table, e.conn);
    }
  }

  // Once a record has a peer it keeps that peer over every run.
  lemma {:induction false} PeersAreFinal(past: seq<Event>, later: seq<Event>, c: Conn)
    requires c in Run(past).links.peers
    ensures var now := Run(past + later).links; c in now.peers && now.peers[c] == Run(past).links.peers[c]
  {
    hide Run, Step;
    if later == [] {
      assert past + later == past;
    } else {
      var n := |later| - 1;
      PeersAreFinal(past, later[..n], c);
      RunSnoc(past + later[..n], later[n]);
      assert past + later == past + later[..n] + [later[n]];
      PeerStays(Run(past + later[..n]), later[n], c);
    }
  }

  lemma PeerStays(s: State, e: Event, c: Conn)
    requires c in s.links.peers
    ensures var now := Step(s, e).links; c in now.peers && now.peers[c] == s.links.peers[c]
  {
    hide Find, Count, Minus, Started, EvictOldestInboundIfFull, AfterInbound;
  }

  // A session whose activation has run through keeps everything it started until the session ends.
  lemma RunningSessionKeepsItsRadio(events: seq<Event>)
    ensures var s := Run(events);
            s.core.Live() && s.radio.issued == ACTIVATION_CALLS ==>
              && {Service, Advertising, Scanning} <= s.radio.up
              && forall k: nat :: k < LISTENERS ==> Listener(k, s.core.session) in s.radio.up
  {
    hide Run;
    RunsKeepInvariant(events);
    if Run(events).core.Live() && Run(events).radio.issued == ACTIVATION_CALLS {
      RadioIsUp(Run(events));
    }
  }

  // A disconnect event of the current session frees its device's slot of that direction, and only it.
  lemma DisconnectEventFreesSlot(events: seq<Event>, d: DeviceId, direction: Direction)
    requires Heard(Run(events).radio, if direction == Outbound then 1 else 4, Run(events).core.session)
    ensures var s := Run(events);
            var e := if direction == Outbound then DeviceDisconnected(s.core.session, d)
                     else CentralDisconnected(s.core.session, d);
            var t := Step(s, e).links.table;
            && (forall c :: c in t <==> c in s.links.table && !(c.device == d && c.direction == direction))
            && Count(t, direction) == Count(s.links.table, direction) -
               if exists c :: c in s.links.table && c.device == d && c.direction == direction then 1 else 0
  {
    hide Run, Step, Inv, Count, Heard;
    RunsKeepInvariant(events);
    InvDistinct(Run(events));
    DisconnectStep(Run(events), d, direction);
    SlotFreed(Run(events).links.table, d, direction);
  }

  /** The table without the device's entry of that direction. */
  function Freed(t: Table, d: DeviceId, direction: Direction): Table {
    var found := Find(t, d);
    if found.Some? && found.value.direction == direction then Minus(t, found.value) else t
  }

  lemma DisconnectStep(s: State, d: DeviceId, direction: Direction)
    requires Heard(s.radio, if direction == Outbound then 1 else 4, s.core.session)
    ensures var e := if direction == Outbound then DeviceDisconnected(s.core.session, d)
                     else CentralDisconnected(s.core.session, d);
            Step(s, e).links.table == Freed(s.links.table, d, direction)
  {
    hide Find, Minus, Heard;
  }

  lemma SlotFreed(t: Table, d: DeviceId, direction: Direction)
    requires DistinctDevices(t)
    ensures var f := Freed(t, d, direction);
            && (forall c :: c in f <==> c in t && !(c.device == d && c.direction == direction))
            && Count(f, direction) == Count(t, direction) -
               if exists c :: c in t && c.device == d && c.direction == direction then 1 else 0
  {
    hide Count;
    var found := Find(t, d);
    if found.Some? {
      MinusKeepsShape(t, found.value);
      forall c | c in t && c.device == d
        ensures c == found.value
      {
        OneRecordPerDevice(t, c, found.value);
      }
    }
  }

  /** The event in which the radio reports that a record's link has ended; it names only the device. */
  function LinkEnds(session: nat, c: Conn): Event {
    if c.direction == Outbound then DeviceDisconnected(session, c.device) else CentralDisconnected(session, c.device)
  }

  // Once tracked, a record shares its device with newer records only.
  lemma {:induction false} LaterRecordsAreNewer(past: seq<Event>, later: seq<Event>, c: Conn)
    requires c in Run(past).links.table
    ensures var l := Run(past + later).links; c.id < l.made && OnlyNewer(l, c)
  {
    hide Run, Step, OnlyNewer;
    RunsKeepInvariant(past);
    if later == [] {
      assert past + later == past;
      OnlyOne(Run(past), c);
    } else {
      var n := |later| - 1;
      LaterRecordsAreNewer(past, later[..n], c);
      RunSnoc(past + later[..n], later[n]);
      assert past + later == past + later[..n] + [later[n]];
      StaysNewer(Run(past + later[..n]), later[n], c);
    }
  }

  ghost predicate OnlyNewer(l: Links, c: Conn) {
    forall x :: x in l.table && x.device == c.device ==> x == c || x.id > c.id
  }

  lemma OnlyOne(s: State, c: Conn)
    requires Inv(s) && c in s.links.table
    ensures c.id < s.links.made && OnlyNewer(s.links, c)
  {
    hide Pending, NoLeak, RadioKept, OneOwner;
  }

  lemma StaysNewer(s: State, e: Event, c: Conn)
    requires c.id < s.links.made && OnlyNewer(s.links, c)
    ensures c.id < Step(s, e).links.made && OnlyNewer(Step(s, e).links, c)
  {
    hide OnlyNewer;
    TableMoves(s, e);
    NewerStays(s.links, Step(s, e).links, c);
  }

  lemma TableMoves(s: State, e: Event)
    ensures var l := Step(s, e).links;
            && s.links.made <= l.made
            && forall x :: x in l.table ==> x in s.links.table || x.id >= s.links.made
  {
    hide Count;
  }

  lemma NewerStays(a: Links, b: Links, c: Conn)
    requires c.id < a.made && OnlyNewer(a, c) && a.made <= b.made
    requires forall x :: x in b.table ==> x in a.table || x.id >= a.made
    ensures OnlyNewer(b, c)
  {
  }

  // A late report that a record's link has ended takes the device's slot of that direction from another
  // record exactly if a newer one holds it; the record of the ended link is then untracked already.
  lemma LateDisconnectDropsNewerExactly(past: seq<Event>, later: seq<Event>, c: Conn)
    requires c in Run(past).links.table
    requires var s := Run(past + later); Heard(s.radio, if c.direction == Outbound then 1 else 4, s.core.session)
    ensures var s := Run(past + later);
            var t := Step(s, LinkEnds(s.core.session, c)).links.table;
            && c !in t
            && ((exists x :: x in s.links.table && x != c && x !in t) <==>
                  exists x :: x in s.links.table && x.device == c.device && x.direction == c.direction && x.id > c.id)
            && ((exists x :: x in s.links.table && x != c && x !in t) ==> c !in s.links.table)
  {
    hide Run, Step, OnlyNewer;
    var all := past + later;
    var s := Run(all);
    var t := Step(s, LinkEnds(s.core.session, c)).links.table;
    LaterRecordsAreNewer(past, later, c);
    RunsKeepInvariant(all);
    DisconnectEventFreesSlot(all, c.device, c.direction);
    forall x | x in s.links.table && x.device == c.device
      ensures x == c || x.id > c.id
    {
      NewerAt(s.links, c, x);
    }
    forall x, y | x in s.links.table && y in s.links.table && x.device == y.device
      ensures x == y
    {
      InvDistinct(s);
      OneRecordPerDevice(s.links.table, x, y);
    }
  }

  lemma NewerAt(l: Links, c: Conn, x: Conn)
    requires OnlyNewer(l, c) && x in l.table && x.device == c.device
    ensures x == c || x.id > c.id
  {
  }

  lemma InvDistinct(s: State)
    requires Inv(s)
    ensures DistinctDevices(s.links.table)
  {
  }

  lemma OneRecordPerDevice(t: Table, a: Conn, b: Conn)
    requires DistinctDevices(t) && a in t && b in t && a.device == b.device
    ensures a == b
  {
  }

  /** How many more turns a connection attempt can take. */
  function Rank(l: Links, c: Conn): nat {
    if c !in l.connecting then 0
    else
      match l.connecting[c]
      case Connect => 5
      case Discover => 4
      case Notify => 3
      case Hello => 2
      case Identified => 1
      case Rejected => 1
  }

  /** The events that wake this attempt where it stands. */
  predicate Wakes(l: Links, e: Event, c: Conn) {
    c in l.connecting &&
    if l.connecting[c] == Hello then e == HelloFails(c) else e.ConnectResumes? && e.conn == c
  }

  // No event sends an attempt back, each of its own resumptions brings it closer to its end, and an
  // attempt that is over has left its record identified or untracked: no slot of a live session leaks.
  lemma AttemptsEndWithoutLeak(events: seq<Event>, e: Event, c: Conn)
    requires c.direction == Outbound && c.id < Run(events).links.made
    ensures var l, now := Run(events).links, Run(events + [e]).links;
            && Rank(now, c) <= Rank(l, c)
            && (Wakes(l, e, c) ==> Rank(now, c) < Rank(l, c))
            && (Run(events + [e]).core.Live() && Rank(now, c) == 0 && c in now.table ==> c in now.peers)
  {
    hide Run, Step;
    RunsKeepInvariant(events);
    RunsKeepInvariant(events + [e]);
    RunSnoc(events, e);
    AttemptAdvances(Run(events), e, c);
  }

  lemma AttemptAdvances(s: State, e: Event, c: Conn)
    requires Inv(s) && c.id < s.links.made
    ensures var now := Step(s, e).links;
            Rank(now, c) <= Rank(s.links, c) && (Wakes(s.links, e, c) ==> Rank(now, c) < Rank(s.links, c))
  {
    hide Bounded, NoLeak, Started, OneOwner, RadioKept, Known, Minus, Find, OnLinks, Issue, Wakes;
    var l := s.links.(dropped := None);
    assert Rank(l, c) == Rank(s.links, c) && Wakes(l, e, c) == Wakes(s.links, e, c) by {
      SameRank(s.links, l, e, c);
    }
    AttemptAdvancesOnLinks(s.core, l, s.radio, e, c);
    var after := Step(s, e).links;
    if e.Activate? || e.Deactivate? || e.ActivationResumes? || e.DeactivationResumes? {
      NotWoken(l, e, c);
    }
  }

  lemma SameRank(a: Links, b: Links, e: Event, c: Conn)
    requires a.connecting == b.connecting
    ensures Rank(a, c) == Rank(b, c) && Wakes(a, e, c) == Wakes(b, e, c)
  {
  }

  lemma NotWoken(l: Links, e: Event, c: Conn)
    requires !e.ConnectResumes? && !e.HelloFails?
    ensures !Wakes(l, e, c)
  {
  }

  lemma AttemptAdvancesOnLinks(core: Core, l: Links, radio: Radio, e: Event, c: Conn)
    requires Pending(l) && c.id < l.made
    ensures var now := OnLinks(core, l, radio, e);
            Rank(now, c) <= Rank(l, c) && (Wakes(l, e, c) ==> Rank(now, c) < Rank(l, c))
  {
    hide Minus, Find, EvictOldestInboundIfFull, Count;
  }

  // An unidentified inbound record of a live session is under a running timer, and the timer frees it.
  lemma InboundTimerFreesSlot(events: seq<Event>, c: Conn)
    requires var s := Run(events);
             s.core.Live() && c in s.links.table && c.direction == Inbound && c !in s.links.peers
    ensures c in Run(events).links.timers && c !in Step(Run(events), TimerFires(c)).links.table
  {
    hide Run;
    RunsKeepInvariant(events);
  }

  /** The turns of an undisturbed outbound handshake: connect, discover, subscribe, exchange HELLOs. */
  function Handshake(c: Conn, peer: NodeId): seq<Event> {
    [DeviceScanned(c.session, c.device), ConnectResumes(c, true), ConnectResumes(c, true), ConnectResumes(c, true),
     HelloReceived(c.session, c.device, Outbound, peer), ConnectResumes(c, true)]
  }

  function StepAll(s: State, events: seq<Event>): State
    decreases |events|
  {
    if events == [] then s else StepAll(Step(s, events[0]), events[1..])
  }

  // An active session with room connects a device it scans and identifies it by its HELLO.
  lemma HandshakeIdentifies(events: seq<Event>, d: DeviceId, peer: NodeId)
    requires var s := Run(events);
             && s.core.active && Heard(s.radio, 0, s.core.session) && Heard(s.radio, 2, s.core.session)
             && Find(s.links.table, d).None? && Count(s.links.table, Outbound) < 7
    ensures var s := Run(events);
            var c := Conn(s.links.made, d, Outbound, s.core.session);
            var done := StepAll(s, Handshake(c, peer));
            && done.links.table == s.links.table + [c]
            && done.links.peers == s.links.peers[c := peer]
            && done.links.connecting == s.links.connecting - {c} == s.links.connecting
            && done.core == s.core && done.radio == s.radio
  {
    hide Run;
    RunsKeepInvariant(events);
    HandshakeFrom(Run(events), d, peer);
  }

  lemma HandshakeFrom(s: State, d: DeviceId, peer: NodeId)
    requires Inv(s) && s.core.active && Heard(s.radio, 0, s.core.session) && Heard(s.radio, 2, s.core.session)
    requires Find(s.links.table, d).None? && Count(s.links.table, Outbound) < MAX_CONNECTIONS
    ensures var c := Conn(s.links.made, d, Outbound, s.core.session);
            var done := StepAll(s, Handshake(c, peer));
            && done.links.table == s.links.table + [c]
            && done.links.peers == s.links.peers[c := peer]
            && done.links.connecting == s.links.connecting - {c} == s.links.connecting
            && done.core == s.core && done.radio == s.radio
  {
    hide Inv, Find, Count, Heard, StepAll, Step;
    var c := Conn(s.links.made, d, Outbound, s.core.session);
    var h := Handshake(c, peer);
    FreshRecord(s, c);
    FindLast(s.links.table, c);
    Subscribed(s, c);
    var before := s.(links := AwaitingHello(s.links, c));
    Greets(s, before, c, peer);
    SixSteps(s, h);
  }

  function AwaitingHello(l: Links, c: Conn): Links {
    l.(table := l.table + [c], made := l.made + 1, connecting := l.connecting[c := Hello], armed := l.armed + {c},
       dropped := None)
  }

  lemma Subscribed(s: State, c: Conn)
    requires s.core.active && Heard(s.radio, 0, s.core.session) && c.id == s.links.made
    requires c.session == s.core.session && c.direction == Outbound
    requires Find(s.links.table, c.device).None? && Count(s.links.table, Outbound) < MAX_CONNECTIONS
    ensures var connect := ConnectResumes(c, true);
            Step(Step(Step(Step(s, DeviceScanned(c.session, c.device)), connect), connect), connect) ==
            s.(links := AwaitingHello(s.links, c))
  {
    hide Find, Count, Heard;
  }

  lemma Greets(s: State, before: State, c: Conn, peer: NodeId)
    requires before == s.(links := AwaitingHello(s.links, c)) && c.session == s.core.session && c.direction == Outbound
    requires Heard(s.radio, 2, s.core.session) && Find(before.links.table, c.device) == Some(c) && c !in s.links.peers
    requires c !in s.links.connecting
    ensures var done := Step(Step(before, HelloReceived(c.session, c.device, Outbound, peer)), ConnectResumes(c, true));
            && done.links.table == s.links.table + [c]
            && done.links.peers == s.links.peers[c := peer]
            && done.links.connecting == s.links.connecting - {c} == s.links.connecting
            && done.core == s.core && done.radio == s.radio
  {
    hide Find, Heard;
  }

  lemma FreshRecord(s: State, c: Conn)
    requires Inv(s) && c.id == s.links.made
    ensures c !in s.links.peers && c !in s.links.connecting && c !in s.links.table && c !in s.links.armed
  {
  }

  lemma {:induction false} FindLast(t: Table, c: Conn)
    requires Find(t, c.device).None?
    ensures Find(t + [c], c.device) == Some(c)
  {
    if t == [] {
      assert t + [c] == [c];
    } else {
      assert (t + [c])[1..] == t[1..] + [c];
      FindLast(t[1..], c);
    }
  }

  lemma SixSteps(s: State, h: seq<Event>)
    requires |h| == 6
    ensures StepAll(s, h) == Step(Step(Step(Step(Step(Step(s, h[0]), h[1]), h[2]), h[3]), h[4]), h[5])
  {
    hide Step;
    var s3 := Step(Step(Step(s, h[0]), h[1]), h[2]);
    ThreeSteps(s, h);
    assert h[3..][0] == h[3] && h[3..][1] == h[4] && h[3..][2] == h[5];
    ThreeSteps(s3, h[3..]);
    assert h[3..][3..] == [];
  }

  lemma ThreeSteps(s: State, h: seq<Event>)
    requires |h| >= 3
    ensures StepAll(s, h) == StepAll(Step(Step(Step(s, h[0]), h[1]), h[2]), h[3..])
  {
    hide Step;
    var s1, s2 := Step(s, h[0]), Step(Step(s, h[0]), h[1]);
    assert StepAll(s, h) == StepAll(s1, h[1..]);
    assert h[1..][1..] == h[2..] && h[2..][1..] == h[3..];
    assert StepAll(s1, h[1..]) == StepAll(s2, h[2..]);
  }

  // ---- what failures do

  /** The resumption finds the session over, the awaited call failed, or the HELLO rejected. */
  predicate Fails(s: State, c: Conn, ok: bool) {
    && c in s.links.connecting && s.links.connecting[c] != Hello
    && (s.links.connecting[c] == Rejected || c.session != s.core.session ||
        (!ok && s.links.connecting[c] != Identified))
  }

  // An attempt that fails is over and its record untracked; the radio is told to disconnect the device
  // exactly if the record still held the slot. Nothing else changes.
  lemma FailedAttemptDisconnectsExactly(events: seq<Event>, c: Conn, ok: bool)
    requires Fails(Run(events), c, ok)
    ensures var s, now := Run(events), Step(Run(events), ConnectResumes(c, ok));
            && now.links.dropped == (if c in s.links.table then Some(c.device) else None)
            && c !in now.links.connecting && c !in now.links.table
            && (forall x :: x in s.links.table && x != c ==> x in now.links.table)
            && now.core == s.core && now.radio == s.radio && now.links.peers == s.links.peers
  {
    hide Run, Count;
  }

  // A HELLO that fails, or does not come in time, ends the attempt at its next resumption.
  lemma FailedHelloEndsAttempt(events: seq<Event>, c: Conn, ok: bool)
    requires var l := Run(events).links; c in l.connecting && l.connecting[c] == Hello
    ensures var s := Run(events);
            var failed := Step(s, HelloFails(c));
            var now := Step(failed, ConnectResumes(c, ok));
            && c in failed.links.connecting && c !in failed.links.armed && failed.links.table == s.links.table
            && now.links.dropped == (if c in s.links.table then Some(c.device) else None)
            && c !in now.links.connecting && c !in now.links.table
  {
    hide Run, Count;
  }

  // A native call that fails ends its activation and switches the relay off, exactly if no newer session
  // has begun.
  lemma FailedActivationSwitchesOff(events: seq<Event>, n: nat)
    requires n in Run(events).radio.activating
    ensures var s, now := Run(events), Step(Run(events), ActivationResumes(n, false));
            && now.core == s.core.(active := s.core.active && n != s.core.session)
            && n !in now.radio.activating && now.radio.up == s.radio.up && now.links.table == s.links.table
  {
    hide Run;
  }

  // Once its HELLO has come, an attempt of a session that goes on ends without touching anything else,
  // whatever the timer or the sending of its own HELLO would have said.
  lemma IdentifiedAttemptEnds(events: seq<Event>, c: Conn, ok: bool)
    requires var s := Run(events);
             c in s.links.connecting && s.links.connecting[c] == Identified && c.session == s.core.session
    ensures var s, now := Run(events), Step(Run(events), ConnectResumes(c, ok));
            && now == s.(links := s.links.(connecting := s.links.connecting - {c}, dropped := None))
            && c in now.links.peers
  {
    hide Run, Bounded, NoLeak, Known, RadioKept;
    RunsKeepInvariant(events);
  }

  /** The listeners an activation still registers when it awaits this call. */
  function ListenersAfter(call: nat, n: nat): set<Native> {
    set k: nat | call < k < LISTENERS :: Listener(k, n)
  }

  // Overtaken by a newer session, an activation still registers the rest of its six listeners, and then
  // ends: it does not touch service, advertising or scan.
  lemma OvertakenActivationEnds(events: seq<Event>, n: nat)
    requires n in Run(events).radio.activating && n != Run(events).core.session
    ensures var s := Run(events);
            var call := s.radio.activating[n];
            var k := if call < LISTENERS then LISTENERS - call else 1;
            var done := Resumed(s, ActivationResumes(n, true), k);
            && n !in done.radio.activating && done.core == s.core && done.links.table == s.links.table
            && done.radio.up == s.radio.up + ListenersAfter(call, n) && done.radio.issued == s.radio.issued
  {
    hide Run, Resumed, Step;
    OvertakenFrom(Run(events), n);
  }

  lemma {:induction false} OvertakenFrom(s: State, n: nat)
    requires n in s.radio.activating && n != s.core.session
    ensures var call := s.radio.activating[n];
            var k := if call < LISTENERS then LISTENERS - call else 1;
            var done := Resumed(s, ActivationResumes(n, true), k);
            && n !in done.radio.activating && done.core == s.core && done.links.table == s.links.table
            && done.radio.up == s.radio.up + ListenersAfter(call, n) && done.radio.issued == s.radio.issued
    decreases LISTENERS - s.radio.activating[n]
  {
    hide Resumed, Step, Told;
    var call, e := s.radio.activating[n], ActivationResumes(n, true);
    var t := Step(s, e);
    OvertakenStep(s, n);
    if call + 1 < LISTENERS {
      OneResume(s, e, LISTENERS - call - 1);
      OvertakenFrom(t, n);
      assert ListenersAfter(call, n) == {Listener(call + 1, n)} + ListenersAfter(call + 1, n);
    } else {
      OneResume(s, e, 0);
      NoResume(t, e);
      assert ListenersAfter(call, n) == {};
    }
  }

  lemma OvertakenStep(s: State, n: nat)
    requires n in s.radio.activating && n != s.core.session
    ensures var call, t := s.radio.activating[n], Step(s, ActivationResumes(n, true));
            && t.core == s.core && t.links.table == s.links.table && t.radio.issued == s.radio.issued
            && (call + 1 < LISTENERS ==>
                  && n in t.radio.activating && t.radio.activating[n] == call + 1
                  && t.radio.up == s.radio.up + {Listener(call + 1, n)})
            && (call + 1 >= LISTENERS ==> n !in t.radio.activating && t.radio.up == s.radio.up)
  {
  }

  // Without a plugin there is nothing to wait for: the session is off and its variables are cleared.
  lemma DeactivationWithoutPlugin(events: seq<Event>)
    ensures var s, now := Run(events), Step(Run(events), Deactivate(false));
            && now.core == Core(false, s.core.session + 1, s.core.owner, None, None)
            && now.links.table == [] && now.links.dropped == None && now.radio == s.radio
  {
    hide Run;
  }

  // ---- the inbound side

  /** Records stand in the table in the order in which they were made. */
  ghost predicate ByAge(t: Table) {
    forall i, j :: 0 <= i < j < |t| ==> t[i].id < t[j].id
  }

  ghost predicate Aged(l: Links) {
    ByAge(l.table) && forall c :: c in l.table ==> c.id < l.made
  }

  lemma {:induction false} MinusIsAged(t: Table, c: Conn)
    requires ByAge(t)
    ensures ByAge(Minus(t, c))
  {
    hide ByAge;
    if t != [] {
      TailByAge(t);
      MinusIsAged(t[1..], c);
      PrependByAge(t[0], Minus(t[1..], c));
      assert Minus(t, c) == Minus(t[1..], c) || Minus(t, c) == [t[0]] + Minus(t[1..], c);
    } else {
      assert Minus(t, c) == t;
    }
  }

  lemma TailByAge(t: Table)
    requires ByAge(t) && t != []
    ensures ByAge(t[1..]) && forall x :: x in t[1..] ==> t[0].id < x.id
  {
  }

  lemma PrependByAge(c: Conn, t: Table)
    requires ByAge(t) && forall x :: x in t ==> c.id < x.id
    ensures ByAge([c] + t)
  {
  }

  lemma OnLinksKeepsAge(core: Core, l: Links, radio: Radio, e: Event)
    requires Aged(l)
    ensures Aged(OnLinks(core, l, radio, e))
  {
    hide Count, Find, Minus;
    forall c {
      MinusIsAged(l.table, c);
    }
  }

  lemma StepKeepsAge(s: State, e: Event)
    requires Aged(s.links)
    ensures Aged(Step(s, e).links)
  {
    hide OnLinks;
    OnLinksKeepsAge(s.core, s.links.(dropped := None), s.radio, e);
  }

  lemma {:induction false} RunsKeepAge(events: seq<Event>)
    ensures Aged(Run(events).links)
  {
    hide Step, Aged;
    if events == [] {
      NothingAged();
    } else {
      RunsKeepAge(events[..|events| - 1]);
      StepKeepsAge(Run(events[..|events| - 1]), events[|events| - 1]);
    }
  }

  lemma NothingAged()
    ensures Aged(INITIAL.links)
  {
  }

  /** The oldest inbound record of a table that has no room for another one. */
  ghost predicate MakesRoom(t: Table, c: Conn) {
    && Count(t, Inbound) >= 7 && c.direction == Inbound
    && forall x :: x in t && x.direction == Inbound ==> c.id <= x.id
  }

  // A central that connects to an active session and sends its HELLO is tracked and identified, for good:
  // its timer is off. All earlier records are still tracked, except the oldest inbound one of seven.
  lemma InboundIsIdentified(events: seq<Event>, d: DeviceId, peer: NodeId)
    requires var s := Run(events);
             && s.core.active && Heard(s.radio, 3, s.core.session) && Heard(s.radio, 5, s.core.session)
             && Find(s.links.table, d).None?
    ensures var s := Run(events);
            var n := s.core.session;
            var c := Conn(s.links.made, d, Inbound, n);
            var done := Step(Step(s, CentralConnected(n, d)), HelloReceived(n, d, Inbound, peer));
            && c in done.links.table && c in done.links.peers && done.links.peers[c] == peer
            && c !in done.links.timers && Step(done, TimerFires(c)).links.table == done.links.table
            && (forall x :: x in s.links.table ==> (x in done.links.table <==> !MakesRoom(s.links.table, x)))
            && (forall x :: x in done.links.table ==> x in s.links.table || x == c)
            && (forall x :: x in s.links.peers ==> x in done.links.peers && done.links.peers[x] == s.links.peers[x])
            && done.core == s.core && done.radio == s.radio
  {
    hide Run, Step, Inv, Aged, MakesRoom;
    RunsKeepInvariant(events);
    RunsKeepAge(events);
    var s := Run(events);
    var c := Conn(s.links.made, d, Inbound, s.core.session);
    Reserved(s, d);
    OldestMakesRoom(s);
    GreetedInbound(s, Step(s, CentralConnected(c.session, d)), c, peer);
  }

  lemma Reserved(s: State, d: DeviceId)
    requires Inv(s) && s.core.active && Heard(s.radio, 3, s.core.session) && Find(s.links.table, d).None?
    ensures var c := Conn(s.links.made, d, Inbound, s.core.session);
            var l := Step(s, CentralConnected(c.session, d)).links;
            && Step(s, CentralConnected(c.session, d)) == s.(links := l)
            && l.table == EvictOldestInboundIfFull(s.links.table) + [c] && Find(l.table, d) == Some(c)
            && l.peers == s.links.peers && c !in l.peers && c in l.armed
  {
    hide Find, Heard, EvictOldestInboundIfFull;
    StillUnknown(s.links.table, d);
    FindLast(EvictOldestInboundIfFull(s.links.table), Conn(s.links.made, d, Inbound, s.core.session));
    FreshRecord(s, Conn(s.links.made, d, Inbound, s.core.session));
  }

  lemma OldestMakesRoom(s: State)
    requires Inv(s) && Aged(s.links)
    ensures var t := s.links.table;
            && (forall x :: x in t ==> (x in EvictOldestInboundIfFull(t) <==> !MakesRoom(t, x)))
            && (forall x :: x in EvictOldestInboundIfFull(t) ==> x in t)
  {
    hide Inv, EvictOldestInboundIfFull, Count;
    InvDistinct(s);
    var t := s.links.table;
    EvictionIsOldestFirst(t);
    if Count(t, Inbound) >= MAX_INBOUND_CONNECTIONS {
      var i :| 0 <= i < |t| && t[i].direction == Inbound && EvictOldestInboundIfFull(t) == t[..i] + t[i + 1..] &&
               (forall k :: 0 <= k < i ==> t[k].direction == Outbound);
      OldestAt(t, i);
    }
  }

  lemma OldestAt(t: Table, i: nat)
    requires ByAge(t) && i < |t| && t[i].direction == Inbound && Count(t, Inbound) >= MAX_INBOUND_CONNECTIONS
    requires forall k :: 0 <= k < i ==> t[k].direction == Outbound
    ensures forall x :: x in t ==> (x in t[..i] + t[i + 1..] <==> !MakesRoom(t, x))
  {
    hide Count;
    AllButOne(t, i);
    var x := t[i];
    forall y | y in t && y.direction == Inbound
      ensures x.id <= y.id
    {
      var k :| 0 <= k < |t| && t[k] == y;
      assert k > i ==> t[i].id < t[k].id;
    }
    assert MakesRoom(t, x);
    assert forall y :: y in t && MakesRoom(t, y) ==> y.id == x.id;
    SameAge(t, x);
  }

  lemma AllButOne(t: Table, i: nat)
    requires ByAge(t) && i < |t|
    ensures forall x :: x in t ==> (x in t[..i] + t[i + 1..] <==> x != t[i])
  {
    var rest := t[..i] + t[i + 1..];
    forall x | x in t && x != t[i]
      ensures x in rest
    {
      var k :| 0 <= k < |t| && t[k] == x;
      assert rest[if k < i then k else k - 1] == x;
    }
  }

  lemma SameAge(t: Table, x: Conn)
    requires ByAge(t) && x in t
    ensures forall y :: y in t && y.id == x.id ==> y == x
  {
  }

  lemma GreetedInbound(s: State, now: State, c: Conn, peer: NodeId)
    requires now == s.(links := now.links) && Heard(s.radio, 5, c.session) && c.direction == Inbound
    requires Find(now.links.table, c.device) == Some(c) && c in now.links.table
    requires now.links.peers == s.links.peers && c !in now.links.peers && c in now.links.armed
    ensures var done := Step(now, HelloReceived(c.session, c.device, Inbound, peer));
            && done.links.table == now.links.table && done.links.peers == s.links.peers[c := peer]
            && c !in done.links.timers && Step(done, TimerFires(c)).links.table == done.links.table
            && done.core == s.core && done.radio == s.radio
  {
    hide Find, Heard;
  }

  // ---- undisturbed activation and teardown

  /** The state after the same continuation has resumed `k` times with nothing in between. */
  function Resumed(s: State, e: Event, k: nat): State
    decreases k
  {
    if k == 0 then s else Resumed(Step(s, e), e, k - 1)
  }

  /** The devices the radio was told to disconnect meanwhile, in order. */
  function Told(s: State, e: Event, k: nat): seq<DeviceId>
    decreases k
  {
    if k == 0 then []
    else
      var n := Step(s, e);
      (if n.links.dropped.Some? then [n.links.dropped.value] else []) + Told(n, e, k - 1)
  }

  // Left alone, an activation makes all its calls and is then up with an empty table of its own.
  lemma ActivationCompletes(events: seq<Event>)
    ensures var s := Run(events);
            var n := s.core.session + 1;
            var done := Resumed(Step(s, Activate), ActivationResumes(n, true), ACTIVATION_CALLS);
            && done.core == Core(true, n, n, Some(n), Some(n)) && done.links.table == []
            && n !in done.radio.activating && done.radio.issued == ACTIVATION_CALLS
            && {Service, Advertising, Scanning} <= done.radio.up
            && forall k: nat :: k < LISTENERS ==> Listener(k, n) in done.radio.up
  {
    hide Run, Step;
    RunsKeepInvariant(events);
    var s := Run(events);
    StepKeeps(s, Activate);
    Activated(s);
    ActivationFrom(Step(s, Activate), 0);
    RadioIsUp(Resumed(Step(s, Activate), ActivationResumes(s.core.session + 1, true), ACTIVATION_CALLS));
  }

  /** What the calls up to this one have asked the radio for. */
  function StartedBy(call: nat, n: nat): set<Native> {
    Started(call, n) + if call == 0 then {} else StartedBy(call - 1, n)
  }

  // On the way there everything rests on what came before: the service is added with all six listeners
  // registered, advertising begins with the service up, and the scan comes last.
  lemma ActivationOrder(events: seq<Event>, k: nat)
    requires k < ACTIVATION_CALLS && Run(events).radio.up == {}
    ensures var n := Run(events).core.session + 1;
            var up := Resumed(Step(Run(events), Activate), ActivationResumes(n, true), k).radio.up;
            && (Scanning in up ==> Advertising in up) && (Advertising in up ==> Service in up)
            && (Service in up ==> forall kind: nat :: kind < 6 ==> Listener(kind, n) in up)
            && (Scanning in up <==> k == ACTIVATION_CALLS - 1)
  {
    hide Run, Resumed, Step, Inv;
    var s := Run(events);
    var n := s.core.session + 1;
    RunsKeepInvariant(events);
    StepKeeps(s, Activate);
    Activated(s);
    FirstCall(s);
    ActivationProgress(Step(s, Activate), 0, k);
    StartedInOrder(k, n);
  }

  lemma FirstCall(s: State)
    ensures Step(s, Activate).radio.up == s.radio.up + Started(0, s.core.session + 1)
  {
    hide Started;
  }

  lemma {:induction false} ActivationProgress(s: State, call: nat, k: nat)
    requires s.core.session in s.radio.activating && s.radio.activating[s.core.session] == call
    requires call + k < ACTIVATION_CALLS && s.radio.up == StartedBy(call, s.core.session)
    ensures var n := s.core.session;
            Resumed(s, ActivationResumes(n, true), k).radio.up == StartedBy(call + k, n)
    decreases k
  {
    hide Resumed, Step, Started;
    var e := ActivationResumes(s.core.session, true);
    if k == 0 {
      NoResume(s, e);
    } else {
      NextCall(s, call);
      OneResume(s, e, k - 1);
      ActivationProgress(Step(s, e), call + 1, k - 1);
    }
  }

  lemma NextCall(s: State, call: nat)
    requires s.core.session in s.radio.activating && s.radio.activating[s.core.session] == call
    requires call + 1 < ACTIVATION_CALLS
    ensures var n := s.core.session;
            var t := Step(s, ActivationResumes(n, true));
            && t.core == s.core && n in t.radio.activating && t.radio.activating[n] == call + 1
            && t.radio.up == s.radio.up + Started(call + 1, n)
  {
    hide Started;
  }

  lemma {:induction false} StartedInOrder(call: nat, n: nat)
    requires call < ACTIVATION_CALLS
    ensures var up := StartedBy(call, n);
            && (Scanning in up <==> call >= 10) && (Advertising in up <==> call >= 9) && (Service in up <==> call >= 8)
            && (forall kind: nat :: kind < 6 ==> (Listener(kind, n) in up <==> kind <= call))
  {
    if call > 0 {
      StartedInOrder(call - 1, n);
    }
  }

  lemma Activated(s: State)
    ensures var n, t := s.core.session + 1, Step(s, Activate);
            && t.core == Core(true, n, n, Some(n), Some(n)) && t.links.table == []
            && n in t.radio.activating && t.radio.activating[n] == 0 && t.radio.issued == 1
  {
    hide Started;
  }

  lemma {:induction false} ActivationFrom(s: State, call: nat)
    requires Inv(s) && s.core.session in s.radio.activating
    requires s.radio.activating[s.core.session] == call < ACTIVATION_CALLS
    requires s.radio.issued == call + 1
    ensures var n := s.core.session;
            var done := Resumed(s, ActivationResumes(n, true), ACTIVATION_CALLS - call);
            && Inv(done) && done.core == s.core && done.links.table == s.links.table
            && n !in done.radio.activating && done.radio.issued == ACTIVATION_CALLS
    decreases ACTIVATION_CALLS - call
  {
    hide Started, OneOwner, Bounded, Known, Pending, NoLeak, RadioKept;
    var e := ActivationResumes(s.core.session, true);
    StepKeeps(s, e);
    var t := Step(s, e);
    if call + 1 < ACTIVATION_CALLS {
      ActivationFrom(t, call + 1);
    } else {
      assert Resumed(t, e, 0) == t;
    }
  }

  lemma RadioIsUp(s: State)
    requires Inv(s) && s.core.Live() && s.radio.issued == ACTIVATION_CALLS
    ensures {Service, Advertising, Scanning} <= s.radio.up
    ensures forall k: nat :: k < LISTENERS ==> Listener(k, s.core.session) in s.radio.up
  {
    var n := s.core.session;
    assert Started(8, n) <= s.radio.up && Started(9, n) <= s.radio.up && Started(10, n) <= s.radio.up;
    forall k: nat | k < LISTENERS
      ensures Listener(k, n) in s.radio.up
    {
      assert Started(k, n) <= s.radio.up;
    }
  }

  function OutboundDevices(t: Table): seq<DeviceId> {
    if t == [] then []
    else (if t[0].direction == Outbound then [t[0].device] else []) + OutboundDevices(t[1..])
  }

  // Left alone, a deactivation stops everything the radio was doing, disconnects exactly the tracked
  // outbound devices, in order, and only then clears the session's variables.
  lemma TeardownCompletes(events: seq<Event>)
    ensures var s := Run(events);
            var n := s.core.session + 1;
            var off, e := Step(s, Deactivate(true)), DeactivationResumes(n);
            var k := 4 + Count(s.links.table, Outbound);
            && Resumed(off, e, k).core == Core(false, n, s.core.owner, None, None)
            && Resumed(off, e, k).links.table == []
            && n !in Resumed(off, e, k).radio.deactivating
            && Resumed(off, e, k).radio.up == {}
            && Told(off, e, k) == OutboundDevices(s.links.table)
            && off.radio.up == s.radio.up - {Scanning} && Step(off, e).radio.up == off.radio.up - {Advertising}
            && Step(Step(off, e), e).radio.up == off.radio.up - {Advertising} - {Service}
  {
    hide Run;
    RunsKeepInvariant(events);
    TeardownFrom(Run(events));
    StopsServices(Run(events));
  }

  lemma TeardownFrom(s: State)
    requires Inv(s)
    ensures var n := s.core.session + 1;
            var off, e := Step(s, Deactivate(true)), DeactivationResumes(n);
            var k := 4 + Count(s.links.table, Outbound);
            && Resumed(off, e, k).core == Core(false, n, s.core.owner, None, None)
            && Resumed(off, e, k).links.table == []
            && n !in Resumed(off, e, k).radio.deactivating
            && Resumed(off, e, k).radio.up == {}
            && Told(off, e, k) == OutboundDevices(s.links.table)
  {
    hide Inv, Resumed, Told, Step, DisconnectNext;
    var n, m := s.core.session + 1, Count(s.links.table, Outbound);
    var e := DeactivationResumes(n);
    var off := Step(s, Deactivate(true));
    StopsServices(s);
    var s2 := Step(Step(off, e), e);
    var t := s.links.table;
    ThreeResumes(off, e, m + 1);
    LoopDrains(s2, n, t);
    NothingUp(s.radio.up);
  }

  lemma StopsServices(s: State)
    ensures var n := s.core.session + 1;
            var off, e := Step(s, Deactivate(true)), DeactivationResumes(n);
            var s2 := Step(Step(off, e), e);
            && off.links.dropped == None && Step(off, e).links.dropped == None && s2.links.dropped == None
            && s2.core == s.core.(active := false, session := n) && s2.links == s.links.(dropped := None)
            && n in s2.radio.deactivating && s2.radio.deactivating[n] == RemoveService
            && s2.radio.up == s.radio.up - {Scanning} - {Advertising} - {Service}
            && off.radio.up == s.radio.up - {Scanning} && Step(off, e).radio.up == off.radio.up - {Advertising}
            && Step(s2, e) == DisconnectNext(s2, n, s.links.table)
  {
    hide DisconnectNext;
  }

  lemma ThreeResumes(s: State, e: Event, k: nat)
    ensures var s3 := Step(Step(Step(s, e), e), e);
            && Resumed(s, e, 3 + k) == Resumed(s3, e, k)
            && (Step(s, e).links.dropped.None? && Step(Step(s, e), e).links.dropped.None? ==>
                  Told(s, e, 3 + k) ==
                  (if s3.links.dropped.Some? then [s3.links.dropped.value] else []) + Told(s3, e, k))
  {
    hide Step;
    var s1, s2 := Step(s, e), Step(Step(s, e), e);
    assert Resumed(s, e, 3 + k) == Resumed(s1, e, 2 + k) == Resumed(s2, e, 1 + k);
    if s1.links.dropped.None? && s2.links.dropped.None? {
      assert Told(s, e, 3 + k) == Told(s1, e, 2 + k) == Told(s2, e, 1 + k);
    }
  }

  lemma {:induction false} AfterInboundSkipsInbound(t: Table)
    ensures Count(AfterInbound(t), Outbound) == Count(t, Outbound)
    ensures OutboundDevices(AfterInbound(t)) == OutboundDevices(t)
    ensures |AfterInbound(t)| <= |t| && (AfterInbound(t) != [] ==> AfterInbound(t)[0].direction == Outbound)
  {
    if t != [] && t[0].direction == Inbound {
      AfterInboundSkipsInbound(t[1..]);
    }
  }

  // The disconnect loop: one device per resumption, then the listeners, then the clearing.
  lemma {:induction false} LoopDrains(s: State, token: nat, rest: Table)
    requires token in s.radio.deactivating && token == s.core.session && s.links.dropped == None
    ensures var e, next := DeactivationResumes(token), DisconnectNext(s, token, rest);
            var k := Count(rest, Outbound) + 1;
            && Resumed(next, e, k).core == s.core.(seen := None, queue := None)
            && Resumed(next, e, k).links.table == []
            && token !in Resumed(next, e, k).radio.deactivating
            && Resumed(next, e, k).radio.up == NoListeners(s.radio.up)
            && (if next.links.dropped.Some? then [next.links.dropped.value] else []) + Told(next, e, k) ==
               OutboundDevices(rest)
    decreases |rest|
  {
    hide Resumed, Told, Step, AfterInbound, NoListeners, DisconnectNext;
    var e, next := DeactivationResumes(token), DisconnectNext(s, token, rest);
    var left := AfterInbound(rest);
    AfterInboundSkipsInbound(rest);
    OneResume(next, e, Count(rest, Outbound));
    LoopStep(s, token, rest);
    if left == [] {
      NoResume(Step(next, e), e);
    } else {
      LoopDrains(next.(links := next.links.(dropped := None)), token, left[1..]);
    }
  }

  lemma LoopStep(s: State, token: nat, rest: Table)
    requires token in s.radio.deactivating && token == s.core.session && s.links.dropped == None
    ensures var next, left := DisconnectNext(s, token, rest), AfterInbound(rest);
            && token in next.radio.deactivating && next.core == s.core
            && (left == [] ==>
                  && next.links.dropped == None
                  && Step(next, DeactivationResumes(token)).core == s.core.(seen := None, queue := None)
                  && Step(next, DeactivationResumes(token)).links == s.links.(table := [])
                  && token !in Step(next, DeactivationResumes(token)).radio.deactivating
                  && Step(next, DeactivationResumes(token)).radio.up == NoListeners(s.radio.up))
            && (left != [] ==>
                  && next.links.dropped == Some(left[0].device) && next.radio.up == s.radio.up
                  && Step(next, DeactivationResumes(token)) ==
                     DisconnectNext(next.(links := next.links.(dropped := None)), token, left[1..]))
  {
    hide AfterInbound, NoListeners;
  }

  lemma OneResume(s: State, e: Event, k: nat)
    ensures Resumed(s, e, k + 1) == Resumed(Step(s, e), e, k)
    ensures Told(s, e, k + 1) ==
            (if Step(s, e).links.dropped.Some? then [Step(s, e).links.dropped.value] else []) + Told(Step(s, e), e, k)
  {
    hide Step;
  }

  lemma NoResume(s: State, e: Event)
    ensures Resumed(s, e, 0) == s && Told(s, e, 0) == []
  {
  }

  lemma NothingUp(up: set<Native>)
    ensures NoListeners(up - {Scanning} - {Advertising} - {Service}) == {}
  {
  }

  // ---------------------------------------------------------------- the client

  /** The module's variables and the handlers that change them, one call per turn of the event loop. */
  class DualRoleClient {
    var relayActive: bool
    var relaySessionId: nat
    var connections: Table
    var seenCache: Option<nat>
    var gattQueue: Option<nat>
    // the connection records' mutable fields, by record
    var peerNodeIds: map<Conn, NodeId>
    var identifyResolvers: set<Conn>
    var recordsMade: nat
    // suspended continuations
    var connecting: map<Conn, Stage>
    var helloTimers: set<Conn>
    var activating: map<nat, nat>
    var deactivating: map<nat, Closing>
    // what the radio has been asked for: it calls the registered listeners
    var up: set<Native>
    // what has happened so far
    ghost var tableOwner: nat
    ghost var issued: nat
    ghost var dropped: Option<DeviceId>
    ghost var history: seq<Event>

    ghost function CoreState(): Core
      reads this
    {
      Core(relayActive, relaySessionId, tableOwner, seenCache, gattQueue)
    }

    ghost function LinkState(): Links
      reads this
    {
      Links(connections, peerNodeIds, identifyResolvers, recordsMade, connecting, helloTimers, dropped)
    }

    ghost function RadioState(): Radio
      reads this
    {
      Radio(activating, deactivating, issued, up)
    }

    ghost function Now(): State
      reads this
    {
      State(CoreState(), LinkState(), RadioState())
    }

    ghost predicate Valid()
      reads this
    {
      Now() == Run(history)
    }

    constructor ()
      ensures Valid() && history == []
    {
      relayActive, relaySessionId, connections, seenCache, gattQueue := false, 0, [], None, None;
      peerNodeIds, identifyResolvers, recordsMade, connecting, helloTimers := map[], {}, 0, map[], {};
      activating, deactivating := map[], map[];
      tableOwner, issued, up, dropped, history := 0, 0, {}, None, [];
    }

    /** A native call of an activation is issued and awaited. */
    method Await(session: nat, call: nat)
      modifies `activating, `up, `issued
      ensures RadioState() == Issue(old(RadioState()), session, call, session == relaySessionId)
    {
      activating := activating[session := call];
      if session == relaySessionId { issued := call + 1; }
      up := up + Started(call, session);
    }

    method ActivateRelay()
      modifies this`relayActive, this`relaySessionId, this`connections, this`seenCache, this`gattQueue
      modifies this`tableOwner, this`activating, this`up, this`issued
      ensures Now() == DoActivate(old(Now()))
    {
      hide Issue;
      var sessionId := BeginSession();
      Await(sessionId, 0);
    }

    method BeginSession() returns (sessionId: nat)
      modifies this`relayActive, this`relaySessionId, this`connections, this`seenCache, this`gattQueue, this`tableOwner
      ensures sessionId == relaySessionId
      ensures var n := old(relaySessionId) + 1;
              CoreState() == Core(true, n, n, Some(n), Some(n)) && LinkState() == old(LinkState()).(table := [])
    {
      relaySessionId := relaySessionId + 1;
      sessionId := relaySessionId;
      seenCache := Some(sessionId);
      connections := [];
      tableOwner := sessionId;
      gattQueue := Some(sessionId);
      relayActive := true;
    }

    method ResumeActivation(sessionId: nat, ok: bool)
      requires sessionId in activating
      modifies this`relayActive, this`activating, this`up, this`issued
      ensures Now() == old(ActivationStep(Now(), sessionId, ok))
    {
      var call := activating[sessionId];
      if !ok {
        activating := activating - {sessionId};
        if sessionId == relaySessionId { relayActive := false; }
      } else if call + 1 < LISTENERS {
        Await(sessionId, call + 1);
      } else if sessionId != relaySessionId || call + 1 == ACTIVATION_CALLS {
        activating := activating - {sessionId};
      } else {
        Await(sessionId, call + 1);
      }
    }

    method DeactivateRelay(plugin: bool)
      modifies this`relayActive, this`relaySessionId, this`connections, this`seenCache, this`gattQueue
      modifies this`deactivating, this`up
      ensures Now() == DoDeactivate(old(Now()), plugin)
    {
      relayActive := false;
      relaySessionId := relaySessionId + 1;
      if plugin {
        CloseNext(relaySessionId, StopScan, up - {Scanning});
      } else {
        ClearSession();
      }
    }

    /** Issues the next teardown call and awaits it. */
    method CloseNext(token: nat, awaited: Closing, left: set<Native>)
      modifies this`deactivating, this`up
      ensures RadioState() == Close(old(RadioState()), token, awaited, left)
    {
      up := left;
      deactivating := deactivating[token := awaited];
    }

    method ClearSession()
      modifies this`connections, this`seenCache, this`gattQueue
      ensures Now() == ClearAll(old(Now()))
    {
      connections, seenCache, gattQueue := [], None, None;
    }

    method ResumeDeactivation(token: nat)
      requires token in deactivating
      modifies this`connections, this`seenCache, this`gattQueue, this`deactivating, this`up, this`dropped
      ensures Now() == old(DeactivationStep(Now(), token))
    {
      var awaited := deactivating[token];
      if token != relaySessionId {
        deactivating := deactivating - {token};
        return;
      }
      match awaited
      case StopScan => CloseNext(token, StopAdvertising, up - {Advertising});
      case StopAdvertising => CloseNext(token, RemoveService, up - {Service});
      case RemoveService => DisconnectOutbound(token, connections);
      case Disconnect(rest) => DisconnectOutbound(token, rest);
      case RemoveListeners =>
        deactivating := deactivating - {token};
        ClearSession();
    }

    /** The rest of the disconnect loop, up to its next await. */
    method DisconnectOutbound(token: nat, snapshot: Table)
      modifies `deactivating, `up, `dropped
      ensures Now() == DisconnectNext(old(Now()), token, snapshot)
    {
      var rest := snapshot;
      while rest != [] && rest[0].direction == Inbound
        invariant AfterInbound(rest) == AfterInbound(snapshot)
        decreases |rest|
      {
        rest := rest[1..];
      }
      if rest == [] {
        up := NoListeners(up);
        deactivating := deactivating[token := RemoveListeners];
      } else {
        dropped := Some(rest[0].device);
        deactivating := deactivating[token := Disconnect(rest[1..])];
      }
    }

    method CountOutbound() returns (n: nat)
      ensures n == Count(connections, Outbound)
    {
      n := 0;
      assert connections[0..] == connections;
      for i := 0 to |connections|
        invariant n + Count(connections[i..], Outbound) == Count(connections, Outbound)
      {
        assert connections[i..][1..] == connections[i + 1..];
        if connections[i].direction == Outbound { n := n + 1; }
      }
    }

    method ReserveConnectionSlot(via: nat, d: DeviceId, direction: Direction) returns (c: Conn)
      modifies `connections, `recordsMade
      ensures c == Conn(old(recordsMade), d, direction, via) && LinkState() == Reserve(old(LinkState()), c)
    {
      c := Conn(recordsMade, d, direction, via);
      connections := connections + [c];
      recordsMade := recordsMade + 1;
    }

    method HandleDeviceScanned(via: nat, d: DeviceId)
      modifies this`connections, this`recordsMade, this`connecting
      ensures LinkState() == Scanned(CoreState(), old(LinkState()), via, d)
    {
      hide Count;
      if !relayActive || via != relaySessionId { return; }
      if Find(connections, d).Some? { return; }
      var outboundCount := CountOutbound();
      if outboundCount >= MAX_CONNECTIONS { return; }
      var c := ReserveConnectionSlot(via, d, Outbound);
      connecting := connecting[c := Connect];
    }

    method HandleDeviceDisconnected(via: nat, d: DeviceId)
      modifies this`connections
      ensures LinkState() == Dropped(CoreState(), old(LinkState()), via, d, Outbound)
    {
      if via != relaySessionId { return; }
      var conn := Find(connections, d);
      if conn.Some? && conn.value.direction == Outbound { connections := Minus(connections, conn.value); }
    }

    method EvictOldestInbound()
      modifies `connections
      ensures connections == EvictOldestInboundIfFull(old(connections))
    {
      var inbound: seq<Conn> := [];
      for i := 0 to |connections|
        invariant |inbound| + Count(connections[i..], Inbound) == Count(connections, Inbound)
        invariant inbound == [] ==> FirstInbound(connections) == i + FirstInbound(connections[i..])
        invariant inbound != [] ==> FirstInbound(connections) < |connections|
        invariant inbound != [] ==> inbound[0] == connections[FirstInbound(connections)]
      {
        assert connections[i..][1..] == connections[i + 1..];
        if connections[i].direction == Inbound { inbound := inbound + [connections[i]]; }
      }
      if |inbound| < MAX_INBOUND_CONNECTIONS { return; }
      connections := Minus(connections, inbound[0]);
    }

    method HandleCentralConnected(via: nat, d: DeviceId)
      modifies this`connections, this`recordsMade, this`helloTimers, this`identifyResolvers
      ensures LinkState() == Accepted(CoreState(), old(LinkState()), via, d)
    {
      hide EvictOldestInboundIfFull;
      if !relayActive || via != relaySessionId { return; }
      if Find(connections, d).Some? { return; }
      EvictOldestInbound();
      var c := ReserveConnectionSlot(via, d, Inbound);
      helloTimers := helloTimers + {c};
      identifyResolvers := identifyResolvers + {c};
    }

    method HandleCentralDisconnected(via: nat, d: DeviceId)
      modifies this`connections
      ensures LinkState() == Dropped(CoreState(), old(LinkState()), via, d, Inbound)
    {
      if via != relaySessionId { return; }
      var conn := Find(connections, d);
      if conn.Some? && conn.value.direction == Inbound { connections := Minus(connections, conn.value); }
    }

    /** A HELLO packet is complete: the notification and write-request listeners end up here. */
    method HandleHello(d: DeviceId, from: Direction, peer: NodeId)
      modifies this`peerNodeIds, this`identifyResolvers, this`helloTimers, this`connecting
      ensures LinkState() == Greeted(old(LinkState()), d, from, peer)
    {
      var found := Find(connections, d);
      if found.None? || found.value.direction != from { return; }
      var conn := found.value;
      if conn !in peerNodeIds && conn in identifyResolvers {
        peerNodeIds := peerNodeIds[conn := peer];
        if from == Inbound { helloTimers := helloTimers - {conn}; }
        else { connecting := connecting[conn := Identified]; }
        identifyResolvers := identifyResolvers - {conn};
      }
    }

    method CleanupConnection(c: Conn)
      modifies `connections, `connecting, `dropped
      ensures LinkState() == Cleanup(old(LinkState()), c)
    {
      connecting := connecting - {c};
      if c !in connections { return; }
      connections := Minus(connections, c);
      dropped := Some(c.device);
    }

    method ResumeConnectToPeer(c: Conn, ok: bool)
      requires c in connecting && connecting[c] != Hello
      modifies this`connections, this`connecting, this`dropped, this`identifyResolvers
      ensures LinkState() == old(ResumeConnect(CoreState(), LinkState(), c, ok))
    {
      hide Cleanup;
      var stage := connecting[c];
      if stage == Rejected || (!ok && stage != Identified) || c.session != relaySessionId {
        CleanupConnection(c);
        return;
      }
      match stage
      case Connect => connecting := connecting[c := Discover];
      case Discover => connecting := connecting[c := Notify];
      case Notify =>
        connecting := connecting[c := Hello];
        identifyResolvers := identifyResolvers + {c};
      case Identified => connecting := connecting - {c};
    }

    method RejectHello(c: Conn)
      requires c in connecting && connecting[c] == Hello
      modifies this`identifyResolvers, this`connecting
      ensures LinkState() == FailHello(old(LinkState()), c)
    {
      identifyResolvers := identifyResolvers - {c};
      connecting := connecting[c := Rejected];
    }

    method FireHelloTimer(c: Conn)
      requires c in helloTimers
      modifies this`helloTimers, this`connections
      ensures LinkState() == FireTimer(CoreState(), old(LinkState()), c)
    {
      helloTimers := helloTimers - {c};
      if c.session != relaySessionId { return; }
      if c in connections { connections := Minus(connections, c); }
    }

    /** One turn of the event loop: whatever happens, the state stays that of the history's run. */
    method Turn(e: Event)
      requires Valid()
      modifies this
      ensures Valid() && history == old(history) + [e]
    {
      hide Run, Apply;
      RunSnoc(history, e);
      history := history + [e];
      dropped := None;
      if e.Activate? || e.Deactivate? || e.ActivationResumes? || e.DeactivationResumes? {
        SessionTurn(e);
      } else if e.ConnectResumes? || e.HelloFails? || e.TimerFires? {
        LinkTurn(e);
      } else {
        RadioTurn(e);
      }
    }

    method SessionTurn(e: Event)
      requires e.Activate? || e.Deactivate? || e.ActivationResumes? || e.DeactivationResumes?
      modifies this`relayActive, this`relaySessionId, this`connections, this`seenCache, this`gattQueue
      modifies this`tableOwner, this`activating, this`deactivating, this`up, this`issued, this`dropped
      ensures Now() == Apply(old(Now()), e)
    {
      hide DoActivate, DoDeactivate, ActivationStep, DeactivationStep;
      match e
      case Activate => ActivateRelay();
      case ActivationResumes(n, ok) => if n in activating { ResumeActivation(n, ok); }
      case Deactivate(plugin) => DeactivateRelay(plugin);
      case DeactivationResumes(n) => if n in deactivating { ResumeDeactivation(n); }
    }

    method RadioTurn(e: Event)
      requires e.DeviceScanned? || e.DeviceDisconnected? || e.CentralConnected? || e.CentralDisconnected? ||
               e.HelloReceived?
      modifies this`connections, this`peerNodeIds, this`identifyResolvers, this`recordsMade
      modifies this`connecting, this`helloTimers
      ensures Now() == Apply(old(Now()), e)
    {
      hide Scanned, Accepted, Dropped, Greeted;
      match e
      case DeviceScanned(via, d) => if Listener(0, via) in up { HandleDeviceScanned(via, d); }
      case DeviceDisconnected(via, d) => if Listener(1, via) in up { HandleDeviceDisconnected(via, d); }
      case CentralConnected(via, d) => if Listener(3, via) in up { HandleCentralConnected(via, d); }
      case CentralDisconnected(via, d) => if Listener(4, via) in up { HandleCentralDisconnected(via, d); }
      case HelloReceived(via, d, from, peer) =>
        if Listener(if from == Outbound then 2 else 5, via) in up { HandleHello(d, from, peer); }
    }

    method LinkTurn(e: Event)
      requires e.ConnectResumes? || e.HelloFails? || e.TimerFires?
      modifies this`connections, this`identifyResolvers, this`connecting, this`helloTimers, this`dropped
      ensures Now() == Apply(old(Now()), e)
    {
      hide Cleanup;
      match e
      case ConnectResumes(c, ok) => if c in connecting && connecting[c] != Hello { ResumeConnectToPeer(c, ok); }
      case HelloFails(c) => if c in connecting && connecting[c] == Hello { RejectHello(c); }
      case TimerFires(c) => if c in helloTimers { FireHelloTimer(c); }
    }
  }
}
