/**
  Whole runs of the backend: any interleaving of user commands, worker
  messages and delayed retries, delivered in any order and however late.
 */
module TorRuns {
  import opened ConnectionPhases
  import opened Sequences
  import opened Text
  import opened Wrappers
  import opened TorSession

  /** One delivered command; a worker's message carries the ordinal of its session. */
  datatype Step = Step(command: Command, world: World, sender: Option<nat>)

  function Run(b: Backend, steps: seq<Step>): Outcome {
    if steps == [] then Outcome(b, [])
    else
      var before := Run(b, Front(steps));
      var o := Handle(before.backend, Last(steps).command, Last(steps).world);
      Outcome(o.backend, before.effects + o.effects)
  }

  /** The effects of the step at the index. */
  function EffectsAt(b: Backend, steps: seq<Step>, i: nat): seq<Effect>
    requires i < |steps|
  {
    Handle(Run(b, steps[..i]).backend, steps[i].command, steps[i].world).effects
  }

  lemma {:induction false} RunKeepsCoherence(b: Backend, steps: seq<Step>)
    requires Coherent(b)
    ensures Coherent(Run(b, steps).backend)
  {
    if steps == [] {
    } else {
      RunKeepsCoherence(b, Front(steps));
      HandleKeepsCoherence(Run(b, Front(steps)).backend, Last(steps).command, Last(steps).world);
    }
  }

  // ---- disconnect is final -------------------------------------------------

  predicate Resurrects(e: Effect) {
    e.HelperTorStart? || e.ScheduleRetry? || e.SpawnWorker?
  }

  predicate Down(b: Backend) {
    b.active.None? && b.socksPort.None? && !b.routeActive
  }

  lemma {:induction false} DownStaysDown(b: Backend, steps: seq<Step>)
    requires Down(b)
    requires forall i :: 0 <= i < |steps| ==> steps[i].command != ConnectTor
    ensures Down(Run(b, steps).backend)
    ensures forall e :: e in Run(b, steps).effects ==> !Resurrects(e)
  {
    if steps == [] {
    } else {
      DownStaysDown(b, Front(steps));
      assert Last(steps).command != ConnectTor by { assert Last(steps) == steps[|steps| - 1]; }
    }
  }

  /**
    After Disconnect nothing comes back by itself: whatever leftover worker
    messages, retries and other commands follow, in any order, no tunnel start
    is requested, no retry or worker is started and the route stays off, until
    the user connects again.
   */
  lemma {:induction false} DisconnectIsFinal(history: seq<Step>, w: World, leftovers: seq<Step>)
    requires forall i :: 0 <= i < |leftovers| ==> leftovers[i].command != ConnectTor
    ensures
      var after := Handle(Run(IDLE, history).backend, Disconnect, w).backend;
      && Down(Run(after, leftovers).backend)
      && forall e :: e in Run(after, leftovers).effects ==> !Resurrects(e)
  {
    RunKeepsCoherence(IDLE, history);
    DownStaysDown(Handle(Run(IDLE, history).backend, Disconnect, w).backend, leftovers);
  }

  // ---- the live session ----------------------------------------------------

  datatype Session = Session(port: Port, outboundIp: Option<string>)

  /**
    The session the user has up, told from the run alone: a connect opens one
    when none is up, a disconnect closes it, and so does a failure report for
    its port.
   */
  function Live(steps: seq<Step>): Option<Session> {
    if steps == [] then None
    else
      var before := Live(Front(steps));
      var w := Last(steps).world;
      match Last(steps).command
      case ConnectTor => if before.None? && w.torFound then Some(Session(w.freePort, w.lanIp)) else before
      case Disconnect => None
      case TorFailed(port) => if before.Some? && before.value.port == port then None else before
      case _ => before
  }

  /** How the helper answered the latest tunnel start requested for the live session. */
  function LatestAnswer(steps: seq<Step>): Option<Reply> {
    if steps == [] || Live(steps).None? then None
    else if Live(Front(steps)).None? then None
    else if exists e :: e in EffectsAt(IDLE, steps, |steps| - 1) && e.HelperTorStart?
    then Some(Last(steps).world.helper)
    else LatestAnswer(Front(steps))
  }

  lemma {:induction false} BackendTracksLive(steps: seq<Step>)
    ensures
      var b := Run(IDLE, steps).backend;
      match Live(steps)
      case None => b.active.None? && b.socksPort.None? && b.outboundIp.None?
      case Some(s) => HoldsTor(b) && b.socksPort == Some(s.port) && b.outboundIp == s.outboundIp
  {
    if steps == [] {
    } else {
      BackendTracksLive(Front(steps));
    }
  }

  /** The live session's worker has reported a connection. */
  function Heard(steps: seq<Step>): bool {
    steps != [] && Live(steps).Some? && Live(Front(steps)).Some? &&
    (Heard(Front(steps)) ||
     (Last(steps).command.TorConnected? && Last(steps).command.port == Live(steps).value.port))
  }

  /** The latest progress of the live session's worker before it reported a connection. */
  function Progress(steps: seq<Step>): Option<nat> {
    if steps == [] || Live(steps).None? || Live(Front(steps)).None? then None
    else
      var c := Last(steps).command;
      if c.TorBootstrapPct? && c.port == Live(steps).value.port && !Heard(Front(steps)) then Some(c.pct)
      else Progress(Front(steps))
  }

  /** The phase and the progress bar show the live session and nothing of any other. */
  lemma {:induction false} ScreenFollowsLiveSession(steps: seq<Step>)
    ensures
      var b := Run(IDLE, steps).backend;
      && b.bar == Progress(steps)
      && (Live(steps).Some? ==>
            HoldsTor(b) && b.active.value.phase == if Heard(steps) then Connected else Connecting)
  {
    BackendTracksLive(steps);
    if steps != [] {
      ScreenFollowsLiveSession(Front(steps));
      BackendTracksLive(Front(steps));
    }
  }

  /** Every tunnel start names the session that is live when it is sent. */
  lemma StartsNameLiveSession(steps: seq<Step>, i: nat, e: Effect)
    requires i < |steps| && e in EffectsAt(IDLE, steps, i) && e.HelperTorStart?
    ensures Live(steps[..i]) == Some(Session(e.port, e.outboundIp))
  {
    BackendTracksLive(steps[..i]);
  }

  /**
    When a tunnel start is requested, exactly: while a session is up, by every
    route command, and by its own worker's report of a known exit unless
    routing is limited to chosen apps.
   */
  lemma StartIsSentIff(steps: seq<Step>, i: nat)
    requires i < |steps|
    ensures
      (exists e :: e in EffectsAt(IDLE, steps, i) && e.HelperTorStart?) <==>
      && Live(steps[..i]).Some?
      && match steps[i].command
         case ApplyTorSystemRoute => true
         case TorConnected(ip, port) =>
           && port == Live(steps[..i]).value.port
           && steps[i].world.isolation != "apps" && ip != "" && ip != "Unknown IP"
         case _ => false
  {
    BackendTracksLive(steps[..i]);
    var effects := EffectsAt(IDLE, steps, i);
    if effects != [] && effects[0].HelperTorStart? {
      assert effects[0] in effects;
    }
  }

  /** A worker is started for the session opened at a step, if its bridges are in order, and never otherwise. */
  lemma WorkersBelongToSessions(steps: seq<Step>, i: nat, port: Port)
    requires i < |steps|
    ensures SpawnWorker(port) in EffectsAt(IDLE, steps, i) <==>
            && Live(steps[..i]).None?
            && steps[i].command == ConnectTor && steps[i].world.bridgesConfigured
            && Live(steps[..i + 1]).Some? && Live(steps[..i + 1]).value.port == port
  {
    TakeNext(steps, i);
    BackendTracksLive(steps[..i]);
    var w := steps[i].world;
    if steps[i].command == ConnectTor {
      assert EffectsAt(IDLE, steps, i) == Connect(Run(IDLE, steps[..i]).backend, w).effects;
      assert SpawnWorker(w.freePort) == [KillTor, SpawnWorker(w.freePort)][1];
    }
  }

  /** However a session ends, the helper is asked to stop the tunnel and tor is killed. */
  lemma SessionEndStopsTunnel(steps: seq<Step>, i: nat)
    requires i < |steps| && Live(steps[..i]).Some? && Live(steps[..i + 1]).None?
    ensures EffectsAt(IDLE, steps, i) == [HelperTorStop, KillTor]
  {
    TakeNext(steps, i);
    BackendTracksLive(steps[..i]);
  }

  /** The client claims the route only if the helper accepted its latest request for this session. */
  lemma {:induction false} RouteWasAccepted(steps: seq<Step>)
    ensures Run(IDLE, steps).backend.routeActive ==> LatestAnswer(steps) == Some(Accepted)
  {
    if steps == [] {
    } else {
      RouteWasAccepted(Front(steps));
      RunKeepsCoherence(IDLE, Front(steps));
      BackendTracksLive(Front(steps));
      BackendTracksLive(steps);
      RunKeepsCoherence(IDLE, steps);
      var b := Run(IDLE, Front(steps)).backend;
      assert steps[..|steps| - 1] == Front(steps);
      var effects := EffectsAt(IDLE, steps, |steps| - 1);
      assert effects == Handle(b, Last(steps).command, Last(steps).world).effects;
      StepSetsRoute(b, Last(steps).command, Last(steps).world);
    }
  }

  lemma StepSetsRoute(b: Backend, c: Command, w: World)
    requires Coherent(b)
    ensures
      var o := Handle(b, c, w);
      if exists e :: e in o.effects && e.HelperTorStart? then o.backend.routeActive == w.helper.Accepted?
      else o.backend.routeActive ==> b.routeActive
  {
    var o := Handle(b, c, w);
    if o.effects != [] && o.effects[0].HelperTorStart? {
      assert o.effects[0] in o.effects;
    }
  }

  // ---- retries -------------------------------------------------------------

  /** An exit is known, or the helper refuses: unless a retry follows, the count starts over. */
  predicate Settles(before: seq<Step>, step: Step) {
    match step.command
    case TorConnected(ip, port) =>
      && Live(before).Some? && Live(before).value.port == port
      && step.world.isolation != "apps" && ip != "" && ip != "Unknown IP"
    case ApplyTorSystemRoute => step.world.helper.Refused?
    case _ => false
  }

  /** Retries scheduled for the live session since it was opened, or its route was last settled. */
  function Tries(steps: seq<Step>): nat {
    if steps == [] || Live(steps).None? || Live(Front(steps)).None? then 0
    else if ScheduleRetry in EffectsAt(IDLE, steps, |steps| - 1) then Tries(Front(steps)) + 1
    else if Settles(Front(steps), Last(steps)) then 0
    else Tries(Front(steps))
  }

  /** A live session's report without an exit, to be routed system-wide, or a refusal for want of a guard. */
  predicate WantsRetry(before: seq<Step>, step: Step) {
    match step.command
    case TorConnected(ip, port) =>
      && Live(before).Some? && port == Live(before).value.port
      && (ip == "" || ip == "Unknown IP") && step.world.isolation == "system"
    case ApplyTorSystemRoute =>
      step.world.helper.Refused? && Contains(step.world.helper.error, "no established guard")
    case _ => false
  }

  /** The counter is the number of those retries, resets included. */
  lemma {:induction false} AttemptsAreTries(steps: seq<Step>)
    requires Live(steps).Some?
    ensures Run(IDLE, steps).backend.routeAttempts == Tries(steps)
  {
    if steps == [] {
    } else {
      var before := Front(steps);
      BackendTracksLive(before);
      assert steps[..|steps| - 1] == before && steps[|steps| - 1] == Last(steps);
      if Live(before).Some? {
        AttemptsAreTries(before);
        RetryFromStep(before, Last(steps));
      }
    }
  }

  /** One step on a live session: when it schedules a retry, and what it does to the counter. */
  lemma {:induction false} RetryFromStep(before: seq<Step>, step: Step)
    requires Live(before).Some?
    ensures
      var b := Run(IDLE, before).backend;
      var o := Handle(b, step.command, step.world);
      && (ScheduleRetry in o.effects <==> b.routeAttempts < 24 && WantsRetry(before, step))
      && (o.backend.active.None? || o.backend.routeAttempts == (
            if ScheduleRetry in o.effects then b.routeAttempts + 1
            else if Settles(before, step) then 0
            else b.routeAttempts))
  {
    BackendTracksLive(before);
    var b := Run(IDLE, before).backend;
    var effects := Handle(b, step.command, step.world).effects;
    if |effects| == 1 { assert effects == [effects[0]]; }
    if |effects| == 2 { assert effects == [effects[0], effects[1]] && effects[1] in effects; }
  }

  /**
    When a retry is scheduled, exactly: while a session is up of whose attempts
    fewer than 24 are used, by its worker's report without an exit when the
    system is to be routed, and by a refusal for want of a guard.
   */
  lemma {:induction false} RetryIsScheduledIff(steps: seq<Step>, i: nat)
    requires i < |steps|
    ensures ScheduleRetry in EffectsAt(IDLE, steps, i)
       <==> Live(steps[..i]).Some? && Tries(steps[..i]) < 24 && WantsRetry(steps[..i], steps[i])
  {
    BackendTracksLive(steps[..i]);
    if Live(steps[..i]).Some? {
      AttemptsAreTries(steps[..i]);
      RetryFromStep(steps[..i], steps[i]);
    }
  }

  /** Whether the route is claimed, told from the run. */
  function Routed(steps: seq<Step>): bool {
    if steps == [] || Live(steps).None? || Live(Front(steps)).None? then false
    else if exists e :: e in EffectsAt(IDLE, steps, |steps| - 1) && e.HelperTorStart?
    then Last(steps).world.helper == Accepted
    else Routed(Front(steps)) && !Unroutes(Front(steps), Last(steps))
  }

  /** Without a start, the route is given up by a local stop, by app isolation, or by a report when no attempt is left. */
  predicate Unroutes(before: seq<Step>, step: Step) {
    match step.command
    case RemoveTorSystemRoute => step.world.localStopWorks
    case TorConnected(ip, port) =>
      && Live(before).Some? && Live(before).value.port == port
      && (step.world.isolation == "apps" || Tries(before) == 24)
    case _ => false
  }

  /** The client claims the route exactly when the latest of these events gave it. */
  lemma {:induction false} RouteIsClaimedIff(steps: seq<Step>)
    ensures Run(IDLE, steps).backend.routeActive == Routed(steps)
  {
    if steps == [] {
    } else {
      var before, n := Front(steps), |steps| - 1;
      RouteIsClaimedIff(before);
      RunKeepsCoherence(IDLE, steps);
      RunKeepsCoherence(IDLE, before);
      BackendTracksLive(steps);
      BackendTracksLive(before);
      assert steps[..n] == before && steps[n] == Last(steps);
      if Live(before).Some? && Live(steps).Some? {
        AttemptsAreTries(before);
        StepSetsRoute(Run(IDLE, before).backend, Last(steps).command, Last(steps).world);
        if !(exists e :: e in EffectsAt(IDLE, steps, n) && e.HelperTorStart?) {
          RouteFromStep(before, Last(steps));
        }
      }
    }
  }

  /** What a step that requests no start does to the route of a session that stays up. */
  lemma {:induction false} RouteWithoutStart(b: Backend, c: Command, w: World)
    requires Coherent(b) && Handle(b, c, w).backend.active.Some? && b.active.Some?
    requires forall e :: e in Handle(b, c, w).effects ==> !e.HelperTorStart?
    ensures
      var gives := match c
        case RemoveTorSystemRoute => w.localStopWorks
        case TorConnected(ip, port) => b.socksPort == Some(port) && (w.isolation == "apps" || b.routeAttempts == 24)
        case _ => false;
      Handle(b, c, w).backend.routeActive == (b.routeActive && !gives)
  {
    var effects := Handle(b, c, w).effects;
    if effects != [] { assert effects[0] in effects; }
  }

  lemma {:induction false} RouteFromStep(before: seq<Step>, step: Step)
    requires Live(before).Some?
    requires Handle(Run(IDLE, before).backend, step.command, step.world).backend.active.Some?
    requires forall e :: e in Handle(Run(IDLE, before).backend, step.command, step.world).effects ==> !e.HelperTorStart?
    ensures Handle(Run(IDLE, before).backend, step.command, step.world).backend.routeActive
         == (Run(IDLE, before).backend.routeActive && !Unroutes(before, step))
  {
    BackendTracksLive(before);
    RunKeepsCoherence(IDLE, before);
    AttemptsAreTries(before);
    RouteWithoutStart(Run(IDLE, before).backend, step.command, step.world);
  }

  // ---- stops and kills -----------------------------------------------------

  /** The step ends the live session because its own worker failed. */
  predicate FailsLive(before: seq<Step>, step: Step) {
    step.command.TorFailed? && Live(before).Some? && Live(before).value.port == step.command.port
  }

  /**
    What a step that tears down or opens requests, in order: a teardown first
    has the helper stop the tunnel and then kills tor, even when no session is
    up; an opening first kills any old tor; a removal only asks the helper; no
    other step does any of that.
   */
  lemma {:induction false} StopsAndKills(steps: seq<Step>, i: nat)
    requires i < |steps|
    ensures
      var before, step, effects := steps[..i], steps[i], EffectsAt(IDLE, steps, i);
      if step.command == Disconnect || FailsLive(before, step) then effects == [HelperTorStop, KillTor]
      else if step.command == RemoveTorSystemRoute then effects == [HelperTorStop]
      else if step.command == ConnectTor && Live(before).None? && step.world.torFound then
        effects == [KillTor] + (if step.world.bridgesConfigured then [SpawnWorker(step.world.freePort)] else [])
      else HelperTorStop !in effects && KillTor !in effects
  {
    BackendTracksLive(steps[..i]);
    RunKeepsCoherence(IDLE, steps[..i]);
  }

  // ---- superseded workers --------------------------------------------------

  predicate FromWorker(c: Command) {
    c.TorConnected? || c.TorFailed? || c.TorBootstrapPct?
  }

  /** The sessions opened so far, oldest first. */
  function Sessions(steps: seq<Step>): seq<Session> {
    if steps == [] then []
    else if Live(Front(steps)).None? && Live(steps).Some? then Sessions(Front(steps)) + [Live(steps).value]
    else Sessions(Front(steps))
  }

  function LiveOrdinal(steps: seq<Step>): Option<nat> {
    if Live(steps).Some? && Sessions(steps) != [] then Some(|Sessions(steps)| - 1) else None
  }

  /** Worker messages come from sessions opened earlier and carry their port. */
  ghost predicate WellSent(steps: seq<Step>) {
    steps == [] ||
    (WellSent(Front(steps)) &&
     (Last(steps).sender.Some? ==>
        var known := Sessions(Front(steps));
        && FromWorker(Last(steps).command)
        && Last(steps).sender.value < |known|
        && Last(steps).command.port == known[Last(steps).sender.value].port))
  }

  ghost predicate DistinctPorts(sessions: seq<Session>) {
    forall i, j :: 0 <= i < j < |sessions| ==> sessions[i].port != sessions[j].port
  }

  /** Sent by a worker whose session is not the one now live. */
  predicate Superseded(before: seq<Step>, step: Step) {
    step.sender.Some? && LiveOrdinal(before) != step.sender
  }

  function Purge(steps: seq<Step>): seq<Step> {
    if steps == [] then []
    else Purge(Front(steps)) + (if Superseded(Front(steps), Last(steps)) then [] else [Last(steps)])
  }

  lemma {:induction false} LiveIsLatest(steps: seq<Step>)
    ensures Live(steps).Some? ==> Sessions(steps) != [] && Last(Sessions(steps)) == Live(steps).value
  {
    if steps == [] {
    } else {
      LiveIsLatest(Front(steps));
    }
  }

  /** A worker's message carries the port of the live session, whoever sent it. */
  predicate HitsLivePort(before: seq<Step>, step: Step) {
    FromWorker(step.command) && Live(before).Some? && Live(before).value.port == step.command.port
  }

  /** No superseded message carries the live port when it is delivered. */
  ghost predicate PortsNotReused(steps: seq<Step>) {
    forall i {:trigger ReusedAt(steps, i)} :: 0 <= i < |steps| ==> !ReusedAt(steps, i)
  }

  /** The message at the index is superseded and carries the live port. */
  predicate ReusedAt(steps: seq<Step>, i: nat)
    requires i < |steps|
  {
    Superseded(steps[..i], steps[i]) && HitsLivePort(steps[..i], steps[i])
  }

  lemma {:induction false} PortsNotReusedNext(before: seq<Step>, step: Step)
    ensures PortsNotReused(before + [step])
       <==> PortsNotReused(before) && !(Superseded(before, step) && HitsLivePort(before, step))
  {
    var all := before + [step];
    forall i | 0 <= i < |before| ensures ReusedAt(all, i) == ReusedAt(before, i) {
      assert all[..i] == before[..i] && all[i] == before[i];
    }
    assert all[..|before|] == before && all[|before|] == step;
    assert ReusedAt(all, |before|) == (Superseded(before, step) && HitsLivePort(before, step));
  }

  lemma {:induction false} SupersededIsIgnored(before: seq<Step>, step: Step)
    requires FromWorker(step.command) && Superseded(before, step) && !HitsLivePort(before, step)
    ensures Handle(Run(IDLE, before).backend, step.command, step.world)
         == Outcome(Run(IDLE, before).backend, [])
  {
    BackendTracksLive(before);
  }

  lemma {:induction false} SessionsGrow(steps: seq<Step>)
    requires steps != [] && DistinctPorts(Sessions(steps))
    ensures DistinctPorts(Sessions(Front(steps)))
  {
    var known := Sessions(Front(steps));
    assert forall i :: 0 <= i < |known| ==> Sessions(steps)[i] == known[i];
  }

  lemma {:induction false} OldPortIsNotLive(before: seq<Step>, step: Step)
    requires WellSent(before + [step]) && DistinctPorts(Sessions(before)) && Superseded(before, step)
    ensures !HitsLivePort(before, step)
  {
    Snoc(before, step);
    LiveIsLatest(before);
    var known, k := Sessions(before), step.sender.value;
    if Live(before).Some? {
      assert k < |known| - 1;
      assert known[k].port != known[|known| - 1].port;
    }
  }

  /** Distinct ports are enough for that. */
  lemma {:induction false} DistinctPortsAreNotReused(steps: seq<Step>)
    requires WellSent(steps) && DistinctPorts(Sessions(steps))
    ensures PortsNotReused(steps)
  {
    if steps == [] {
    } else {
      var before, step := Front(steps), Last(steps);
      SessionsGrow(steps);
      DistinctPortsAreNotReused(before);
      assert steps == before + [step];
      if Superseded(before, step) {
        OldPortIsNotLive(before, step);
      }
      PortsNotReusedNext(before, step);
    }
  }

  /**
    As long as no superseded message finds its port live again, superseded
    workers might as well be silent: deleting every message they send changes
    neither the backend nor anything it ever asks for.
   */
  lemma {:induction false} SupersededWorkersAreInvisible(steps: seq<Step>)
    requires WellSent(steps) && PortsNotReused(steps)
    ensures Run(IDLE, Purge(steps)) == Run(IDLE, steps)
  {
    if steps == [] {
    } else {
      var before, step := Front(steps), Last(steps);
      assert steps == before + [step];
      PortsNotReusedNext(before, step);
      SupersededWorkersAreInvisible(before);
      var seen := Run(IDLE, before);
      if Superseded(before, step) {
        SupersededIsIgnored(before, step);
        assert Purge(before) + [] == Purge(before);
        assert seen.effects + [] == seen.effects;
      } else {
        Snoc(Purge(before), step);
      }
    }
  }

  // ---- the guard, exactly --------------------------------------------------

  /**
    The guard is the port and nothing else: in any reachable state a failure
    report changes nothing exactly when its port is not the live one.
   */
  lemma {:induction false} FailureIgnoredIffPortDiffers(history: seq<Step>, port: Port, w: World)
    ensures
      var b := Run(IDLE, history).backend;
      Handle(b, TorFailed(port), w) == Outcome(b, [])
      <==> Live(history).None? || Live(history).value.port != port
  {
    BackendTracksLive(history);
    RunKeepsCoherence(IDLE, history);
  }

  /**
    A progress report changes nothing exactly when its port is not the live
    one, or a connection has been heard of, or it says what is shown already.
   */
  lemma {:induction false} ProgressIgnoredIff(history: seq<Step>, port: Port, pct: nat, w: World)
    ensures
      var b := Run(IDLE, history).backend;
      Handle(b, TorBootstrapPct(port, pct), w) == Outcome(b, [])
      <==> || Live(history).None? || Live(history).value.port != port
           || Heard(history) || Progress(history) == Some(pct)
  {
    ScreenFollowsLiveSession(history);
    BackendTracksLive(history);
  }

  /** A further connection report of a connected session still does something. */
  predicate StillActs(b: Backend, ip: string, w: World) {
    if w.isolation == "apps" then b.routeActive
    else
      || KnownExit(ip)
      || (w.isolation == "system" && b.routeAttempts < MAX_ROUTE_ATTEMPTS)
      || (b.routeAttempts == MAX_ROUTE_ATTEMPTS && b.routeActive)
  }

  /**
    A connection report changes nothing exactly when its port is not the live
    one, or the session is known to be connected and the report neither
    requests a start or a retry nor takes the route away.
   */
  lemma {:induction false} ConnectionIgnoredIff(history: seq<Step>, ip: string, port: Port, w: World)
    ensures
      var b := Run(IDLE, history).backend;
      Handle(b, TorConnected(ip, port), w) == Outcome(b, [])
      <==> || Live(history).None? || Live(history).value.port != port
           || (Heard(history) && !StillActs(b, ip, w))
  {
    ScreenFollowsLiveSession(history);
    BackendTracksLive(history);
    RunKeepsCoherence(IDLE, history);
    ReportIgnoredIff(Run(IDLE, history).backend, ip, port, w);
  }

  lemma {:induction false} ReportIgnoredIff(b: Backend, ip: string, port: Port, w: World)
    requires Coherent(b)
    ensures Handle(b, TorConnected(ip, port), w) == Outcome(b, [])
       <==> b.socksPort != Some(port) || (b.active.value.phase == Connected && !StillActs(b, ip, w))
  {
    if b.socksPort == Some(port) {
      var o := OnConnected(b, ip, port, w);
      assert o.backend.active == Some(b.active.value.(phase := Connected));
      if b.active.value.phase != Connected {
        assert o.backend.active != b.active;
      }
    }
  }

  /** The user connects, disconnects and connects again, and gets the same port both times. */
  function Reconnect(w: World): seq<Step> {
    [Step(ConnectTor, w, None)] + [Step(Disconnect, w, None)] + [Step(ConnectTor, w, None)]
  }

  lemma {:induction false} ReconnectSessions(w: World)
    requires w.torFound
    ensures
      var s := Session(w.freePort, w.lanIp);
      && Live(Reconnect(w)) == Some(s) && Sessions(Reconnect(w)) == [s] + [s] && WellSent(Reconnect(w))
  {
    var connect, disconnect := Step(ConnectTor, w, None), Step(Disconnect, w, None);
    var s := Session(w.freePort, w.lanIp);
    assert Front([connect]) == [];
    assert Live([connect]) == Some(s) && Sessions([connect]) == [s] && WellSent([connect]);
    Snoc([connect], disconnect);
    assert Live([connect] + [disconnect]) == None && Sessions([connect] + [disconnect]) == [s];
    Snoc([connect] + [disconnect], connect);
  }

  /**
    A port the system hands out again defeats the guard: a failure report left
    over from the first session ends the second.
   */
  lemma {:induction false} ReusedPortEndsNewSession(w: World)
    requires w.torFound
    ensures
      var before := Reconnect(w);
      var stale := Step(TorFailed(w.freePort), w, Some(0));
      && WellSent(before + [stale]) && Superseded(before, stale) && HitsLivePort(before, stale)
      && Live(before).Some? && Live(before + [stale]).None?
      && Run(IDLE, Purge(before + [stale])).backend != Run(IDLE, before + [stale]).backend
  {
    var before, stale := Reconnect(w), Step(TorFailed(w.freePort), w, Some(0));
    ReconnectSessions(w);
    Snoc(before, stale);
    BackendTracksLive(before);
    BackendTracksLive(before + [stale]);
    UserStepStays([], Step(ConnectTor, w, None));
    assert [] + [Step(ConnectTor, w, None)] == [Step(ConnectTor, w, None)];
    UserStepStays([Step(ConnectTor, w, None)], Step(Disconnect, w, None));
    UserStepStays([Step(ConnectTor, w, None)] + [Step(Disconnect, w, None)], Step(ConnectTor, w, None));
    assert Purge(before) + [] == Purge(before);
  }

  /** Nothing of the user's own is purged. */
  lemma {:induction false} UserStepStays(before: seq<Step>, step: Step)
    requires Purge(before) == before && step.sender.None?
    ensures Purge(before + [step]) == before + [step]
  {
    Snoc(before, step);
  }

  // ---- automatic bring-up terminates ---------------------------------------

  /** The backend with the automatic messages that may still arrive. */
  datatype Auto = Auto(backend: Backend, retries: nat, connectedToCome: nat)

  predicate Drives(c: Command) {
    c.TorConnected? || c.ApplyTorSystemRoute?
  }

  /** A command that can arrive without the user. */
  predicate Pending(s: Auto, c: Command) {
    match c
    case TorConnected(_, _) => s.connectedToCome > 0
    case ApplyTorSystemRoute => s.retries > 0
    case TorFailed(_) => true
    case TorBootstrapPct(_, _) => true
    case _ => false
  }

  function CountRetries(effects: seq<Effect>): nat {
    if effects == [] then 0
    else CountRetries(Front(effects)) + (if Last(effects).ScheduleRetry? then 1 else 0)
  }

  function CountStarts(effects: seq<Effect>): nat {
    if effects == [] then 0
    else CountStarts(Front(effects)) + (if Last(effects).HelperTorStart? then 1 else 0)
  }

  function Deliver(s: Auto, c: Command, w: World): Auto
    requires Pending(s, c)
  {
    var o := Handle(s.backend, c, w);
    Auto(o.backend,
         s.retries - (if c.ApplyTorSystemRoute? then 1 else 0) + CountRetries(o.effects),
         s.connectedToCome - (if c.TorConnected? then 1 else 0))
  }

  function Budget(s: Auto): nat {
    25 * (s.retries + s.connectedToCome) +
    (if s.backend.routeAttempts < 24 then 24 - s.backend.routeAttempts else 0)
  }

  lemma SmallCounts(x: Effect, y: Effect)
    ensures CountRetries([x]) == (if x.ScheduleRetry? then 1 else 0)
    ensures CountStarts([x]) == (if x.HelperTorStart? then 1 else 0)
    ensures CountRetries([x, y]) == CountRetries([x]) + CountRetries([y])
    ensures CountStarts([x, y]) == CountStarts([x]) + CountStarts([y])
  {
    Snoc([], x);
    Snoc([], y);
    Snoc([x], y);
    assert [x, y] == [x] + [y];
    assert [] + [x] == [x] && [] + [y] == [y];
  }

  /**
    Every automatic message that can drive the route uses up budget, even
    when several retry chains share the one counter; the others never add any.
   */
  lemma BudgetShrinks(s: Auto, c: Command, w: World)
    requires Pending(s, c)
    ensures Budget(Deliver(s, c, w)) + (if Drives(c) then 1 else 0) <= Budget(s)
    ensures CountStarts(Handle(s.backend, c, w).effects) <= if Drives(c) then 1 else 0
  {
    var effects := Handle(s.backend, c, w).effects;
    if |effects| == 1 { SmallCounts(effects[0], effects[0]); assert effects == [effects[0]]; }
    if |effects| == 2 { SmallCounts(effects[0], effects[1]); assert effects == [effects[0], effects[1]]; }
  }

  predicate BootstrapRefusal(step: Step) {
    && step.command == ApplyTorSystemRoute
    && step.world.helper.Refused? && StillBootstrapping(step.world.helper.error)
  }

  /** One refusal for want of a guard: one more start, and a retry if an attempt is left. */
  lemma {:induction false} OneRefusal(b: Backend, step: Step)
    requires HoldsTor(b) && b.socksPort.Some? && b.routeAttempts <= 24 && BootstrapRefusal(step)
    ensures
      var o := Handle(b, step.command, step.world);
      && CountStarts(o.effects) == 1
      && CountRetries(o.effects) == (if b.routeAttempts < 24 then 1 else 0)
      && o.backend == b.(routeActive := false, routeAttempts := if b.routeAttempts < 24 then b.routeAttempts + 1 else 0)
  {
    var start := HelperTorStart(b.socksPort.value, b.outboundIp);
    SmallCounts(start, ScheduleRetry);
  }

  /** The backend after so many such refusals. */
  function Worn(b: Backend, refusals: nat): Backend
    requires b.routeAttempts <= 24
  {
    if refusals == 0 then b
    else b.(routeActive := false,
            routeAttempts := if b.routeAttempts + refusals <= 24 then b.routeAttempts + refusals else 0)
  }

  /**
    The budget is used in full and no further: a chain of retries that the
    helper keeps refusing for want of a guard asks once more for each of the
    attempts left, then schedules nothing and starts the count over.
   */
  lemma {:induction false} RefusedChain(b: Backend, steps: seq<Step>)
    requires HoldsTor(b) && b.socksPort.Some? && b.routeAttempts <= 24
    requires forall i :: 0 <= i < |steps| ==> BootstrapRefusal(steps[i])
    requires |steps| <= 25 - b.routeAttempts
    ensures CountStarts(Run(b, steps).effects) == |steps|
    ensures CountRetries(Run(b, steps).effects)
         == if |steps| <= 24 - b.routeAttempts then |steps| else 24 - b.routeAttempts
    ensures Run(b, steps).backend == Worn(b, |steps|)
  {
    if steps == [] {
    } else {
      var init, step := Front(steps), Last(steps);
      assert forall i :: 0 <= i < |init| ==> init[i] == steps[i];
      RefusedChain(b, init);
      assert BootstrapRefusal(step) by { assert step == steps[|steps| - 1]; }
      OneMoreRefusal(b, Run(b, init), |init|, step);
    }
  }

  lemma {:induction false} OneMoreRefusal(b: Backend, before: Outcome, n: nat, step: Step)
    requires HoldsTor(b) && b.socksPort.Some? && b.routeAttempts + n <= 24 && BootstrapRefusal(step)
    requires before.backend == Worn(b, n)
    ensures
      var o := Handle(before.backend, step.command, step.world);
      && o.backend == Worn(b, n + 1)
      && CountStarts(before.effects + o.effects) == CountStarts(before.effects) + 1
      && CountRetries(before.effects + o.effects)
         == CountRetries(before.effects) + (if b.routeAttempts + n < 24 then 1 else 0)
  {
    OneRefusal(before.backend, step);
    CountsAppend(before.effects, Handle(before.backend, step.command, step.world).effects);
  }

  /** What is left after a run without the user, if each message was pending when it arrived. */
  function After(s: Auto, steps: seq<Step>): Option<Auto> {
    if steps == [] then Some(s)
    else
      var before := After(s, Front(steps));
      if before.Some? && Pending(before.value, Last(steps).command)
      then Some(Deliver(before.value, Last(steps).command, Last(steps).world))
      else None
  }

  predicate Automatic(s: Auto, steps: seq<Step>) {
    After(s, steps).Some?
  }

  function DriveCount(steps: seq<Step>): nat {
    if steps == [] then 0 else DriveCount(Front(steps)) + (if Drives(Last(steps).command) then 1 else 0)
  }

  /**
    With a helper that always answers and no further user commands, bring-up
    terminates: the driving messages handled, and the tunnel starts they
    request, never exceed the budget at the outset.
   */
  lemma {:induction false} BringUpTerminates(s: Auto, steps: seq<Step>)
    requires Automatic(s, steps)
    ensures After(s, steps).value.backend == Run(s.backend, steps).backend
    ensures DriveCount(steps) + Budget(After(s, steps).value) <= Budget(s)
    ensures CountStarts(Run(s.backend, steps).effects) <= DriveCount(steps)
  {
    if steps == [] {
    } else {
      BringUpTerminates(s, Front(steps));
      var before := After(s, Front(steps)).value;
      BudgetShrinks(before, Last(steps).command, Last(steps).world);
      CountsAppend(Run(s.backend, Front(steps)).effects,
                   Handle(before.backend, Last(steps).command, Last(steps).world).effects);
    }
  }

  lemma {:induction false} CountsAppend(a: seq<Effect>, b: seq<Effect>)
    ensures CountStarts(a + b) == CountStarts(a) + CountStarts(b)
    ensures CountRetries(a + b) == CountRetries(a) + CountRetries(b)
  {
    if b == [] {
      assert a + b == a;
    } else {
      CountsAppend(a, Front(b));
      assert Front(a + b) == a + Front(b) && Last(a + b) == Last(b);
    }
  }

  /**
    In particular a session opened with no retry left over, to which so many
    connection reports are delivered, requests at most 25 tunnel starts for
    each of them and 24 more.
   */
  lemma {:induction false} FreshSessionIsBounded(history: seq<Step>, w: World, reports: nat, steps: seq<Step>)
    requires Live(history).None? && w.torFound
    requires Automatic(Auto(Handle(Run(IDLE, history).backend, ConnectTor, w).backend, 0, reports), steps)
    ensures DriveCount(steps) <= 25 * reports + 24
    ensures CountStarts(Run(Handle(Run(IDLE, history).backend, ConnectTor, w).backend, steps).effects)
         <= 25 * reports + 24
  {
    BackendTracksLive(history);
    BringUpTerminates(Auto(Handle(Run(IDLE, history).backend, ConnectTor, w).backend, 0, reports), steps);
  }
}
