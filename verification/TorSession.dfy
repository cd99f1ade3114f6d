/**
  The desktop client's Tor session as a state machine on values: the backend's
  session fields, one function per command, and what each command asks of the
  outside world. What the world answers is an argument of the step.
 */
module TorSession {
  import opened ConnectionPhases
  import opened Text
  import opened Wrappers

  const MAX_ROUTE_ATTEMPTS: nat := 24
  const CANCELLED_ATTEMPTS: nat := 99
  const TOR_SERVER := "tor_local"

  type Port = nat

  datatype ActiveConnection = ActiveConnection(serverId: string, phase: Phase)

  datatype Backend = Backend(
    active: Option<ActiveConnection>,
    socksPort: Option<Port>,
    outboundIp: Option<string>,
    routeActive: bool,
    routeAttempts: nat,
    bar: Option<nat>)

  const IDLE: Backend := Backend(None, None, None, false, 0, None)

  datatype Command =
    | ConnectTor
    | TorConnected(ip: string, port: Port)
    | TorFailed(port: Port)
    | TorBootstrapPct(port: Port, pct: nat)
    | ApplyTorSystemRoute
    | RemoveTorSystemRoute
    | Disconnect

  datatype Reply = Accepted | Refused(error: string)

  /** What the surroundings answer while one command is handled. */
  datatype World = World(
    torFound: bool,
    freePort: Port,
    lanIp: Option<string>,
    bridgesConfigured: bool,
    isolation: string,
    helper: Reply,
    localStopWorks: bool)

  datatype Effect =
    | HelperTorStart(port: Port, outboundIp: Option<string>)
    | HelperTorStop
    | KillTor
    | SpawnWorker(port: Port)
    | ScheduleRetry

  datatype Outcome = Outcome(backend: Backend, effects: seq<Effect>)

  predicate HoldsTor(b: Backend) {
    b.active.Some? && b.active.value.serverId == TOR_SERVER
  }

  function Connect(b: Backend, w: World): Outcome {
    if b.active.Some? || !w.torFound then Outcome(b, [])
    else
      Outcome(
        b.(socksPort := Some(w.freePort), routeAttempts := 0, outboundIp := w.lanIp,
           active := Some(ActiveConnection(TOR_SERVER, Connecting))),
        if w.bridgesConfigured then [KillTor, SpawnWorker(w.freePort)] else [KillTor])
  }

  predicate KnownExit(ip: string) {
    ip != "" && ip != "Unknown IP"
  }

  function OnConnected(b: Backend, ip: string, port: Port, w: World): Outcome {
    if b.socksPort != Some(port) || !HoldsTor(b) then Outcome(b, [])
    else
      var up := b.(active := Some(b.active.value.(phase := Connected)));
      if w.isolation == "apps" then Outcome(up.(routeActive := false), [])
      else if !KnownExit(ip) then
        if w.isolation == "system" && b.routeAttempts < MAX_ROUTE_ATTEMPTS then
          Outcome(up.(routeAttempts := b.routeAttempts + 1), [ScheduleRetry])
        else if b.routeAttempts >= MAX_ROUTE_ATTEMPTS then
          Outcome(up.(routeActive := false), [])
        else
          Outcome(up, [])
      else
        Outcome(up.(routeAttempts := 0, routeActive := w.helper.Accepted?),
                [HelperTorStart(port, b.outboundIp)])
  }

  function OnBootstrapPct(b: Backend, port: Port, pct: nat): Outcome {
    if b.socksPort == Some(port) && HoldsTor(b) && b.active.value.phase == Connecting then
      Outcome(b.(bar := Some(pct)), [])
    else
      Outcome(b, [])
  }

  function OnFailed(b: Backend, port: Port): Outcome {
    if b.socksPort == Some(port) && HoldsTor(b) then Teardown(b) else Outcome(b, [])
  }

  function Teardown(b: Backend): Outcome {
    if HoldsTor(b) then
      Outcome(Backend(None, None, None, false, CANCELLED_ATTEMPTS, None), [HelperTorStop, KillTor])
    else if b.active.Some? then
      Outcome(b.(active := None, routeActive := false, bar := None), [])
    else
      Outcome(Backend(None, None, None, false, 0, None), [HelperTorStop, KillTor])
  }

  /** The helper has no established guard to route around yet. */
  predicate StillBootstrapping(error: string) {
    Contains(error, "no established guard")
  }

  function ApplyRoute(b: Backend, w: World): Outcome {
    if b.socksPort.None? || !HoldsTor(b) then Outcome(b.(routeActive := false), [])
    else
      var start := HelperTorStart(b.socksPort.value, b.outboundIp);
      match w.helper
      case Accepted => Outcome(b.(routeActive := true), [start])
      case Refused(error) =>
        if StillBootstrapping(error) && b.routeAttempts < MAX_ROUTE_ATTEMPTS then
          Outcome(b.(routeActive := false, routeAttempts := b.routeAttempts + 1), [start, ScheduleRetry])
        else
          Outcome(b.(routeActive := false, routeAttempts := 0), [start])
  }

  function RemoveRoute(b: Backend, w: World): Outcome {
    Outcome(if w.localStopWorks then b.(routeActive := false) else b, [HelperTorStop])
  }

  function Handle(b: Backend, c: Command, w: World): Outcome {
    match c
    case ConnectTor => Connect(b, w)
    case TorConnected(ip, port) => OnConnected(b, ip, port, w)
    case TorFailed(port) => OnFailed(b, port)
    case TorBootstrapPct(port, pct) => OnBootstrapPct(b, port, pct)
    case ApplyTorSystemRoute => ApplyRoute(b, w)
    case RemoveTorSystemRoute => RemoveRoute(b, w)
    case Disconnect => Teardown(b)
  }

  // ---- what every command keeps --------------------------------------------

  /**
    A port is held exactly while a session is up, the session is Tor's, the
    route is only ever on behalf of it, and the retry budget is in range.
   */
  predicate Coherent(b: Backend) {
    && (b.active.None? <==> b.socksPort.None?)
    && (b.active.Some? ==> b.active.value.serverId == TOR_SERVER)
    && (b.active.Some? ==> b.active.value.phase in {Connecting, Connected})
    && (b.active.None? ==> !b.routeActive && b.outboundIp.None?)
    && (b.active.Some? ==> b.routeAttempts <= 24)
    && (b.active.None? ==> b.routeAttempts == 0 || b.routeAttempts == 99)
  }

  lemma HandleKeepsCoherence(b: Backend, c: Command, w: World)
    requires Coherent(b)
    ensures Coherent(Handle(b, c, w).backend)
  {
  }
}
