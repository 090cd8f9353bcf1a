/**
 * `connectAndConfirm`: one outbound connection attempt that trusts only events tagged with its own
 * device, and a timer.
 *
 * Its two listener registrations, the events, the timer and the rejection of `connect` may come in any
 * order; each is one `Event` here.
 */
module ConnectConfirm {
  import opened Wrappers

  type DeviceId = string

  datatype Kind = Connected | Disconnected

  datatype Outcome = Resolved | Refused

  /** A listener's registration: asked for, granted with a handle, or denied. */
  datatype Registration = Asked | Granted | Denied

  /** One value for each of the two listeners. */
  datatype Both<T> = Both(connected: T, disconnected: T) {
    function Of(k: Kind): T {
      if k == Connected then connected else disconnected
    }

    function With(k: Kind, v: T): Both<T> {
      if k == Connected then Both(v, disconnected) else Both(connected, v)
    }
  }

  datatype State = State(
    outcome: Option<Outcome>,           // None while not settled
    timer: bool,
    registrations: Both<Registration>,
    captured: bool,                     // both registrations are settled and their handles stored
    removals: Both<nat>,                // calls of handle.remove()
    connects: nat)                      // calls of plugin.connect()

  const INITIAL := State(None, true, Both(Asked, Asked), false, Both(0, 0), 0)

  datatype Event =
    | Timeout
    | Fires(kind: Kind, device: DeviceId)
    | Registers(kind: Kind, ok: bool)
    | BothSettled           // the continuation of Promise.allSettled
    | ConnectRejects

  predicate Enabled(s: State, e: Event)
  {
    match e
    case Timeout => s.timer
    case Fires(kind, _) => s.registrations.Of(kind) != Denied
    case Registers(kind, _) => s.registrations.Of(kind) == Asked
    case BothSettled => !s.captured && s.registrations.connected != Asked && s.registrations.disconnected != Asked
    case ConnectRejects => s.connects > 0
  }

  function Removed(s: State, kind: Kind): nat
  {
    s.removals.Of(kind) + if s.captured && s.registrations.Of(kind) == Granted then 1 else 0
  }

  function RemoveListeners(s: State): State
  {
    s.(removals := Both(Removed(s, Connected), Removed(s, Disconnected)))
  }

  function Finish(s: State, o: Outcome): State
  {
    if s.outcome.Some? then s else RemoveListeners(s.(outcome := Some(o), timer := false))
  }

  function Step(device: DeviceId, s: State, e: Event): State
  {
    if !Enabled(s, e) then s
    else
      match e
      case Timeout => Finish(s, Refused)
      case Fires(kind, d) => if d == device then Finish(s, if kind == Connected then Resolved else Refused) else s
      case Registers(kind, ok) => s.(registrations := s.registrations.With(kind, if ok then Granted else Denied))
      case BothSettled =>
        var c := s.(captured := true);
        if s.outcome.Some? then RemoveListeners(c)
        else if s.registrations.connected == Denied || s.registrations.disconnected == Denied then Finish(c, Refused)
        else c.(connects := s.connects + 1)
      case ConnectRejects => Finish(s, Refused)
  }

  function Run(device: DeviceId, events: seq<Event>): State
  {
    if events == [] then INITIAL else Step(device, Run(device, events[..|events| - 1]), events[|events| - 1])
  }

  lemma RunSnoc(device: DeviceId, past: seq<Event>, e: Event)
    ensures Run(device, past + [e]) == Step(device, Run(device, past), e)
  {
    assert (past + [e])[..|past|] == past;
  }

  ghost predicate Inv(s: State)
  {
    && (s.outcome.None? <==> s.timer)
    && (s.captured ==> s.registrations.connected != Asked && s.registrations.disconnected != Asked)
    && (forall k: Kind ::
          s.removals.Of(k) == if s.captured && s.outcome.Some? && s.registrations.Of(k) == Granted then 1 else 0)
    && s.connects <= 1
    && (s.connects == 1 ==> s.captured)
    && (s.captured && s.outcome.None? ==> s.connects == 1)
    && (s.connects == 1 ==> s.registrations.connected == Granted && s.registrations.disconnected == Granted)
  }

  lemma StepKeeps(device: DeviceId, s: State, e: Event)
    requires Inv(s)
    ensures Inv(Step(device, s, e))
  {
  }

  lemma {:induction false} RunsKeep(device: DeviceId, events: seq<Event>)
    ensures Inv(Run(device, events))
  {
    hide Inv, Step;
    if events == [] {
      InitialInv();
    } else {
      RunsKeep(device, events[..|events| - 1]);
      StepKeeps(device, Run(device, events[..|events| - 1]), events[|events| - 1]);
    }
  }

  lemma InitialInv()
    ensures Inv(INITIAL)
  {
  }

  // The promise settles at most once: no later event changes how.
  lemma {:induction false} SettlesOnce(device: DeviceId, past: seq<Event>, later: seq<Event>)
    requires Run(device, past).outcome.Some?
    ensures Run(device, past + later).outcome == Run(device, past).outcome
  {
    hide Run;
    if later == [] {
      assert past + later == past;
    } else {
      var n := |later| - 1;
      SettlesOnce(device, past, later[..n]);
      RunSnoc(device, past + later[..n], later[n]);
      assert past + later == past + later[..n] + [later[n]];
    }
  }

  // It never hangs: until it has settled the timer is running, and the timer settles it.
  lemma TimeoutSettles(device: DeviceId, events: seq<Event>)
    ensures Run(device, events + [Timeout]).outcome.Some?
  {
    hide Run;
    RunsKeep(device, events);
    RunSnoc(device, events, Timeout);
  }

  /** The event that settles: the first own event, a denied registration, a rejected connect or the timer. */
  ghost predicate SettlesAt(device: DeviceId, events: seq<Event>, i: nat)
    requires i < |events|
  {
    Run(device, events[..i]).outcome.None? && Run(device, events[..i + 1]).outcome.Some?
  }

  // A call not settled yet is settled by exactly these: its timer, an event of its own device, the end of
  // the two registrations if one was denied, and the rejection of its connect.
  lemma SettledExactlyBy(device: DeviceId, events: seq<Event>, e: Event)
    requires Run(device, events).outcome.None? && Enabled(Run(device, events), e)
    ensures var s, now := Run(device, events), Run(device, events + [e]);
            && (now.outcome.Some? <==>
                  match e
                  case Timeout => true
                  case Fires(_, d) => d == device
                  case Registers(_, _) => false
                  case BothSettled => s.registrations.connected == Denied || s.registrations.disconnected == Denied
                  case ConnectRejects => true)
            && (now.outcome == Some(Resolved) <==> e == Fires(Connected, device))
            && (now.outcome.Some? <==> !now.timer)
            && (now.outcome.None? && e.BothSettled? <==> now.connects > s.connects)
  {
    hide Run;
    RunsKeep(device, events);
    RunSnoc(device, events, e);
  }

  // It resolves exactly when what settled it is the connected event of its own device.
  lemma {:induction false} ResolvesOnlyForItsDevice(device: DeviceId, events: seq<Event>)
    ensures Run(device, events).outcome == Some(Resolved) <==>
            exists i :: 0 <= i < |events| && SettlesAt(device, events, i) && events[i] == Fires(Connected, device)
  {
    hide Run, Step;
    if exists i :: 0 <= i < |events| && SettlesAt(device, events, i) && events[i] == Fires(Connected, device) {
      var i :| 0 <= i < |events| && SettlesAt(device, events, i) && events[i] == Fires(Connected, device);
      ResolvedThere(device, events, i);
    }
    if Run(device, events).outcome == Some(Resolved) {
      var i := WhereResolved(device, events);
    }
  }

  lemma ResolvedThere(device: DeviceId, events: seq<Event>, i: nat)
    requires i < |events| && SettlesAt(device, events, i) && events[i] == Fires(Connected, device)
    ensures Run(device, events).outcome == Some(Resolved)
  {
    hide Run;
    var past, later := events[..i + 1], events[i + 1..];
    assert events[..i] + [events[i]] == past;
    RunSnoc(device, events[..i], events[i]);
    hide Step;
    assert Run(device, past).outcome == Some(Resolved);
    SettlesOnce(device, past, later);
    assert past + later == events;
  }

  lemma {:induction false} WhereResolved(device: DeviceId, events: seq<Event>) returns (i: nat)
    requires Run(device, events).outcome == Some(Resolved)
    ensures i < |events| && SettlesAt(device, events, i) && events[i] == Fires(Connected, device)
  {
    hide Run;
    RunStart(device);
    var n := |events| - 1;
    assert events[..n] + [events[n]] == events == events[..n + 1];
    RunSnoc(device, events[..n], events[n]);
    if Run(device, events[..n]).outcome.Some? {
      i := WhereResolved(device, events[..n]);
      assert events[..n][..i] == events[..i] && events[..n][..i + 1] == events[..i + 1];
    } else {
      i := n;
    }
  }

  lemma RunStart(device: DeviceId)
    ensures Run(device, []) == INITIAL
  {
  }

  // No listener is left behind: once the promise and both registrations have settled, each listener
  // that was registered has been removed, exactly once, and no other removal was ever tried.
  lemma ListenersAreRemovedOnce(device: DeviceId, events: seq<Event>, kind: Kind)
    ensures var s := Run(device, events);
            s.removals.Of(kind) == if s.captured && s.outcome.Some? && s.registrations.Of(kind) == Granted then 1 else 0
  {
    hide Run;
    RunsKeep(device, events);
  }

  // `connect` is called at most once, and only under two registered listeners.
  lemma ConnectUnderBothListeners(device: DeviceId, events: seq<Event>)
    ensures var s := Run(device, events);
            s.connects <= 1 &&
            (s.connects == 1 ==> s.registrations.connected == Granted && s.registrations.disconnected == Granted)
  {
    hide Run;
    RunsKeep(device, events);
  }

  // ---------------------------------------------------------------- the attempt

  /** The local variables of one call, and the callbacks that share them. */
  class Attempt {
    const deviceId: DeviceId
    var settled: bool
    var connectedHandle: bool     // a handle is stored
    var disconnectedHandle: bool
    var timer: bool
    var registrations: Both<Registration>
    ghost var outcome: Option<Outcome>
    ghost var captured: bool
    ghost var removals: Both<nat>
    ghost var connects: nat
    ghost var history: seq<Event>

    ghost function Now(): State
      reads this
    {
      State(outcome, timer, registrations, captured, removals, connects)
    }

    ghost predicate Valid()
      reads this
    {
      && Now() == Run(deviceId, history)
      && settled == outcome.Some?
      && connectedHandle == (captured && registrations.connected == Granted)
      && disconnectedHandle == (captured && registrations.disconnected == Granted)
    }

    constructor (deviceId: DeviceId)
      ensures Valid() && history == [] && this.deviceId == deviceId
    {
      this.deviceId := deviceId;
      settled, connectedHandle, disconnectedHandle, timer := false, false, false, true;
      registrations := Both(Asked, Asked);
      outcome, captured, removals, connects, history := None, false, Both(0, 0), 0, [];
    }

    method RemoveListenersBestEffort()
      requires connectedHandle == (captured && registrations.connected == Granted)
      requires disconnectedHandle == (captured && registrations.disconnected == Granted)
      modifies `removals
      ensures Now() == RemoveListeners(old(Now()))
    {
      ghost var first := removals.connected + if connectedHandle then 1 else 0;
      ghost var second := removals.disconnected + if disconnectedHandle then 1 else 0;
      removals := Both(first, second);
    }

    method FinishWith(o: Outcome)
      requires settled == outcome.Some?
      requires connectedHandle == (captured && registrations.connected == Granted)
      requires disconnectedHandle == (captured && registrations.disconnected == Granted)
      modifies `settled, `outcome, `timer, `removals
      ensures Now() == Finish(old(Now()), o) && settled == outcome.Some?
    {
      if settled { return; }
      settled := true;
      timer := false;
      outcome := Some(o);
      RemoveListenersBestEffort();
    }

    /** The callbacks: whatever comes next, the call's variables follow the history. */
    method On(e: Event)
      requires Valid() && Enabled(Now(), e)
      modifies this
      ensures Valid() && history == old(history) + [e]
    {
      hide Run;
      RunsKeep(deviceId, history);
      RunSnoc(deviceId, history, e);
      history := history + [e];
      match e
      case Timeout => FinishWith(Refused);
      case Fires(kind, device) =>
        if device == deviceId { FinishWith(if kind == Connected then Resolved else Refused); }
      case Registers(kind, ok) =>
        registrations := registrations.With(kind, if ok then Granted else Denied);
      case BothSettled => Capture();
      case ConnectRejects => FinishWith(Refused);
    }

    method Capture()
      requires Enabled(Now(), BothSettled) && settled == outcome.Some?
      modifies this`connectedHandle, this`disconnectedHandle, this`captured, this`settled, this`outcome, this`timer
      modifies this`removals, this`connects
      ensures Now() == Step(deviceId, old(Now()), BothSettled) && settled == outcome.Some?
      ensures connectedHandle == (captured && registrations.connected == Granted)
      ensures disconnectedHandle == (captured && registrations.disconnected == Granted)
    {
      captured := true;
      connectedHandle := registrations.connected == Granted;
      disconnectedHandle := registrations.disconnected == Granted;
      if settled {
        RemoveListenersBestEffort();
        return;
      }
      if registrations.connected == Denied || registrations.disconnected == Denied {
        FinishWith(Refused);
        return;
      }
      connects := connects + 1;
    }
  }
}
