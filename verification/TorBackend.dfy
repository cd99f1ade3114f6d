/** The backend object whose methods update the session fields in place. */
module TorBackend {
  import opened ConnectionPhases
  import opened Text
  import opened Wrappers
  import opened TorSession

  class BackendState {
    var activeConnection: Option<ActiveConnection>
    var torSocksPort: Option<Port>
    var torOutboundIp: Option<string>
    var torSystemRouteActive: bool
    var torRouteAttempts: nat
    var bar: Option<nat>
    /** Requests made of the helper, the workers and the timer, oldest first. */
    var sent: seq<Effect>

    function View(): Backend
      reads this
    {
      Backend(activeConnection, torSocksPort, torOutboundIp, torSystemRouteActive, torRouteAttempts, bar)
    }

    twostate predicate Did(o: Outcome)
      reads this
    {
      View() == o.backend && sent == old(sent) + o.effects
    }

    constructor ()
      ensures View() == IDLE && sent == [] && Coherent(View())
    {
      activeConnection, torSocksPort, torOutboundIp := None, None, None;
      torSystemRouteActive, torRouteAttempts, bar, sent := false, 0, None, [];
    }

    method HandleCommand(command: Command, w: World)
      modifies this
      ensures Did(Handle(old(View()), command, w))
      ensures old(Coherent(View())) ==> Coherent(View())
    {
      if Coherent(View()) { HandleKeepsCoherence(View(), command, w); }
      match command {
        case ConnectTor => ConnectToTor(w);
        case TorConnected(ip, port) => HandleConnected(ip, port, w);
        case TorFailed(port) => HandleFailed(port);
        case TorBootstrapPct(port, pct) => HandleBootstrapPct(port, pct);
        case ApplyTorSystemRoute => ApplySystemRoute(w);
        case RemoveTorSystemRoute => RemoveSystemRoute(w);
        case Disconnect => DisconnectNow();
      }
    }

    method ConnectToTor(w: World)
      modifies this
      ensures Did(Connect(old(View()), w))
    {
      if activeConnection.Some? {
        assert sent + [] == sent;
        return;
      }
      if !w.torFound {
        assert sent + [] == sent;
        return;
      }
      torSocksPort := Some(w.freePort);
      torRouteAttempts := 0;
      torOutboundIp := w.lanIp;
      activeConnection := Some(ActiveConnection(TOR_SERVER, Connecting));
      sent := sent + [KillTor];
      if !w.bridgesConfigured {
        return;
      }
      sent := sent + [SpawnWorker(w.freePort)];
    }

    method HandleConnected(ip: string, port: Port, w: World)
      modifies this
      ensures Did(OnConnected(old(View()), ip, port, w))
    {
      if torSocksPort != Some(port) {
        assert sent + [] == sent;
        return;
      }
      if activeConnection.None? || activeConnection.value.serverId != TOR_SERVER {
        assert sent + [] == sent;
        return;
      }
      activeConnection := Some(activeConnection.value.(phase := Connected));
      if w.isolation == "apps" {
        torSystemRouteActive := false;
        assert sent + [] == sent;
        return;
      }
      if ip == "" || ip == "Unknown IP" {
        if w.isolation == "system" && torRouteAttempts < MAX_ROUTE_ATTEMPTS {
          torRouteAttempts := torRouteAttempts + 1;
          sent := sent + [ScheduleRetry];
        } else {
          if torRouteAttempts >= MAX_ROUTE_ATTEMPTS {
            torSystemRouteActive := false;
          }
          assert sent + [] == sent;
        }
        return;
      }
      torRouteAttempts := 0;
      sent := sent + [HelperTorStart(port, torOutboundIp)];
      torSystemRouteActive := w.helper.Accepted?;
    }

    method HandleBootstrapPct(port: Port, pct: nat)
      modifies this
      ensures Did(OnBootstrapPct(old(View()), port, pct))
    {
      assert sent + [] == sent;
      if torSocksPort == Some(port) && activeConnection.Some? {
        if activeConnection.value == ActiveConnection(TOR_SERVER, Connecting) {
          bar := Some(pct);
        }
      }
    }

    method HandleFailed(port: Port)
      modifies this
      ensures Did(OnFailed(old(View()), port))
    {
      if torSocksPort != Some(port) || activeConnection.None? || activeConnection.value.serverId != TOR_SERVER {
        assert sent + [] == sent;
        return;
      }
      DisconnectNow();
    }

    method DisconnectNow()
      modifies this
      ensures Did(Teardown(old(View())))
    {
      var taken := activeConnection;
      activeConnection := None;
      if taken.Some? {
        if taken.value.serverId == TOR_SERVER {
          // Cancel first: nothing in flight may bring the tunnel back.
          torSocksPort := None;
          torOutboundIp := None;
          torRouteAttempts := CANCELLED_ATTEMPTS;
          torSystemRouteActive := false;
          sent := sent + [HelperTorStop];
          sent := sent + [KillTor];
        } else {
          assert sent + [] == sent;
        }
      } else {
        sent := sent + [HelperTorStop];
        sent := sent + [KillTor];
        torSystemRouteActive := false;
        torSocksPort := None;
        torOutboundIp := None;
        torRouteAttempts := 0;
      }
      torSystemRouteActive := false;
      bar := None;
    }

    method ApplySystemRoute(w: World)
      modifies this
      ensures Did(ApplyRoute(old(View()), w))
    {
      if torSocksPort.None? || activeConnection.None? || activeConnection.value.serverId != TOR_SERVER {
        torSystemRouteActive := false;
        assert sent + [] == sent;
        return;
      }
      sent := sent + [HelperTorStart(torSocksPort.value, torOutboundIp)];
      match w.helper {
        case Accepted =>
          torSystemRouteActive := true;
        case Refused(error) =>
          torSystemRouteActive := false;
          if Contains(error, "no established guard") && torRouteAttempts < MAX_ROUTE_ATTEMPTS {
            torRouteAttempts := torRouteAttempts + 1;
            sent := sent + [ScheduleRetry];
          } else {
            torRouteAttempts := 0;
          }
      }
    }

    method RemoveSystemRoute(w: World)
      modifies this
      ensures Did(RemoveRoute(old(View()), w))
    {
      sent := sent + [HelperTorStop];
      if w.localStopWorks {
        torSystemRouteActive := false;
      }
    }
  }
}
