/**
  The root helper's watchdog: it remembers the process that asked for the Tor
  tunnel and tears the tunnel down once that process is gone. Dispatches and
  watchdog ticks are atomic events, interleaved with processes coming and going.
 */
module TorWatchdog {
  import opened Sequences
  import opened Text
  import opened Wrappers

  const GUI_NAME := "vpn-client"

  /** The process table: live process ids and the file names of their executables. */
  type Processes = map<nat, string>

  datatype Event =
    | TorStart(peer: Option<nat>)
    | TorStop
    | Tick
    | Spawn(pid: nat, exe: string)
    | Exit(pid: nat)

  /** The helper with its surroundings; `teardowns` counts what the watchdog stopped. */
  datatype State = State(owner: nat, procs: Processes, teardowns: nat)

  const BOOT: State := State(0, map[], 0)

  predicate IsGui(procs: Processes, pid: nat) {
    pid in procs && Lower(procs[pid]) == GUI_NAME
  }

  function OwnerAfterStart(owner: nat, procs: Processes, peer: Option<nat>): nat {
    if peer.Some? && IsGui(procs, peer.value) then peer.value else owner
  }

  predicate TearsDown(s: State) {
    s.owner != 0 && s.owner !in s.procs
  }

  function Next(s: State, e: Event): State {
    match e
    case TorStart(peer) => s.(owner := OwnerAfterStart(s.owner, s.procs, peer))
    case TorStop => s.(owner := 0)
    case Tick => if TearsDown(s) then s.(owner := 0, teardowns := s.teardowns + 1) else s
    // Process id 0 is never in /proc.
    case Spawn(pid, exe) => if pid == 0 then s else s.(procs := s.procs[pid := exe])
    case Exit(pid) => s.(procs := s.procs - {pid})
  }

  function Run(events: seq<Event>): State {
    if events == [] then BOOT else Next(Run(Front(events)), Last(events))
  }

  // ---- the daemon ----------------------------------------------------------

  class HelperDaemon {
    var torOwnerPid: nat
    /** Tunnel stops ordered by the watchdog. */
    var teardowns: nat

    constructor ()
      ensures torOwnerPid == 0 && teardowns == 0
    {
      torOwnerPid, teardowns := 0, 0;
    }

    method DispatchTorStart(peer: Option<nat>, procs: Processes)
      modifies this`torOwnerPid
      ensures forall n :: State(torOwnerPid, procs, n) == Next(State(old(torOwnerPid), procs, n), TorStart(peer))
    {
      if peer.Some? {
        var pid := peer.value;
        var peerIsGui := pid in procs && Lower(procs[pid]) == GUI_NAME;
        if peerIsGui {
          torOwnerPid := pid;
        }
      }
    }

    method DispatchTorStop(ghost procs: Processes)
      modifies this`torOwnerPid
      ensures State(torOwnerPid, procs, teardowns) == Next(State(old(torOwnerPid), procs, teardowns), TorStop)
    {
      torOwnerPid := 0;
    }

    method WatchdogTick(procs: Processes)
      modifies this
      ensures State(torOwnerPid, procs, teardowns) == Next(State(old(torOwnerPid), procs, old(teardowns)), Tick)
    {
      var pid := torOwnerPid;
      if pid != 0 {
        var stillAlive := pid in procs;
        if !stillAlive {
          teardowns := teardowns + 1;
          torOwnerPid := 0;
        }
      }
    }
  }

  // ---- who owns the tunnel -------------------------------------------------

  /** At this index a graphical client asks for the tunnel. */
  predicate Claims(events: seq<Event>, i: nat, pid: nat)
    requires i < |events|
  {
    var procs := Run(events[..i]).procs;
    events[i] == TorStart(Some(pid)) && pid in procs && Lower(procs[pid]) == "vpn-client"
  }

  /** At this index the tunnel is given up, by request or by the watchdog. */
  predicate Releases(events: seq<Event>, i: nat)
    requires i < |events|
  {
    events[i] == TorStop || (events[i] == Tick && TearsDown(Run(events[..i])))
  }

  ghost predicate Unclaimed(events: seq<Event>, i: nat)
    requires i < |events|
  {
    forall pid :: !Claims(events, i, pid)
  }

  ghost predicate Undisturbed(events: seq<Event>, from: nat)
    requires from <= |events|
  {
    forall k :: from <= k < |events| ==> !Releases(events, k) && Unclaimed(events, k)
  }

  ghost predicate LatestClaim(events: seq<Event>, j: nat, pid: nat)
    requires j < |events|
  {
    Claims(events, j, pid) && Undisturbed(events, j + 1)
  }

  lemma PrefixClaims(events: seq<Event>, i: nat, pid: nat)
    requires events != [] && i < |events| - 1
    ensures Claims(Front(events), i, pid) == Claims(events, i, pid)
    ensures Releases(Front(events), i) == Releases(events, i)
  {
    assert Front(events)[..i] == events[..i];
  }

  lemma {:induction false} ProcessZero(events: seq<Event>)
    ensures 0 !in Run(events).procs
  {
    if events == [] {
    } else {
      ProcessZero(Front(events));
    }
  }

  /** The owner is the latest graphical client to have asked since the tunnel was last given up. */
  lemma {:induction false} OwnerIsLatestClaim(events: seq<Event>, pid: nat)
    requires pid != 0
    ensures Run(events).owner == pid <==> exists j :: 0 <= j < |events| && LatestClaim(events, j, pid)
  {
    if events == [] {
    } else {
      var n := |events| - 1;
      var before := Front(events);
      assert events[..n] == before;
      OwnerIsLatestClaim(before, pid);
      ProcessZero(before);
      forall j | 0 <= j < n ensures LatestClaim(events, j, pid) <==>
        LatestClaim(before, j, pid) && !Releases(events, n) && Unclaimed(events, n)
      {
        LatestClaimFront(events, j, pid);
      }
      assert LatestClaim(events, n, pid) <==> Claims(events, n, pid);
      LastEventDecides(events, pid);
    }
  }

  lemma LatestClaimFront(events: seq<Event>, j: nat, pid: nat)
    requires events != [] && j < |events| - 1
    ensures LatestClaim(events, j, pid) <==>
            LatestClaim(Front(events), j, pid) && !Releases(events, |events| - 1)
            && Unclaimed(events, |events| - 1)
  {
    var n := |events| - 1;
    PrefixClaims(events, j, pid);
    forall k | 0 <= k < n
      ensures Releases(Front(events), k) == Releases(events, k) && Unclaimed(Front(events), k) == Unclaimed(events, k)
    {
      PrefixClaims(events, k, pid);
      forall p ensures Claims(Front(events), k, p) == Claims(events, k, p) {
        PrefixClaims(events, k, p);
      }
    }
    if Undisturbed(events, j + 1) {
      assert !Releases(events, n) && Unclaimed(events, n);
      assert Undisturbed(Front(events), j + 1);
    }
  }

  lemma {:induction false} LastEventDecides(events: seq<Event>, pid: nat)
    requires events != [] && pid != 0
    ensures
      var n := |events| - 1;
      Run(events).owner == pid <==>
      Claims(events, n, pid)
      || (Run(Front(events)).owner == pid && !Releases(events, n) && Unclaimed(events, n))
  {
    var n := |events| - 1;
    assert events[..n] == Front(events);
    match events[n] {
      case TorStart(peer) =>
        if peer.Some? {
          assert forall p :: Claims(events, n, p) <==> p == peer.value && IsGui(Run(Front(events)).procs, p);
        }
      case _ =>
    }
  }

  /** A tick tears the tunnel down exactly when the latest claimant's id is no longer live. */
  lemma TickTearsDownIff(events: seq<Event>)
    ensures TearsDown(Run(events)) <==>
            exists j, pid :: 0 <= j < |events| && pid != 0 && LatestClaim(events, j, pid) && pid !in Run(events).procs
  {
    var owner := Run(events).owner;
    if TearsDown(Run(events)) {
      OwnerIsLatestClaim(events, owner);
      var j :| 0 <= j < |events| && LatestClaim(events, j, owner);
    }
    if exists j, pid :: 0 <= j < |events| && pid != 0 && LatestClaim(events, j, pid) && pid !in Run(events).procs {
      var j, pid :| 0 <= j < |events| && pid != 0 && LatestClaim(events, j, pid) && pid !in Run(events).procs;
      OwnerIsLatestClaim(events, pid);
    }
  }

  // ---- from a claim to the teardown ----------------------------------------

  /** The claimant exits, and a tick comes after. */
  predicate TickAfterExit(events: seq<Event>, pid: nat) {
    events != [] &&
    (TickAfterExit(Front(events), pid) || (Last(events) == Tick && Exit(pid) in Front(events)))
  }

  /** After the claim nobody else takes over, gives up, or reuses the id. */
  predicate LeftAlone(before: seq<Event>, more: seq<Event>, pid: nat) {
    more == [] ||
    (LeftAlone(before, Front(more), pid) &&
     match Last(more)
     case TorStart(peer) => peer.None? || !IsGui(Run(before + Front(more)).procs, peer.value)
     case TorStop => false
     case Spawn(p, _) => p != pid
     case _ => true)
  }

  /**
    After a graphical client asks for the tunnel, whatever foreign requests,
    ticks and other processes follow: the watchdog leaves the tunnel up as long
    as the client lives, and the first tick after its death, no earlier and no
    later one, tears it down.
   */
  lemma {:induction false} WatchdogFollowsClient(before: seq<Event>, more: seq<Event>, pid: nat)
    requires IsGui(Run(before).procs, pid)
    requires LeftAlone(before + [TorStart(Some(pid))], more, pid)
    ensures
      var s := Run(before + [TorStart(Some(pid))] + more);
      && (pid in s.procs <==> Exit(pid) !in more)
      && s.owner == (if TickAfterExit(more, pid) then 0 else pid)
      && s.teardowns == Run(before).teardowns + (if TickAfterExit(more, pid) then 1 else 0)
  {
    var claimed := before + [TorStart(Some(pid))];
    ProcessZero(before);
    Snoc(before, TorStart(Some(pid)));
    if more == [] {
      assert claimed + more == claimed;
    } else {
      WatchdogFollowsClient(before, Front(more), pid);
      assert Front(claimed + more) == claimed + Front(more) && Last(claimed + more) == Last(more);
      assert more == Front(more) + [Last(more)];
    }
  }

  /** The proviso about ids is needed: a reused id hides the death from every tick. */
  lemma ReusedIdHidesDeath(before: seq<Event>, pid: nat, exe: string)
    requires IsGui(Run(before).procs, pid)
    ensures
      var run := before + [TorStart(Some(pid))] + [Exit(pid)] + [Spawn(pid, exe)];
      !TearsDown(Run(run)) && Run(run).owner == pid
  {
    ProcessZero(before);
    var claimed := before + [TorStart(Some(pid))];
    Snoc(before, TorStart(Some(pid)));
    assert Run(claimed).owner == pid;
    Snoc(claimed, Exit(pid));
    assert Run(claimed + [Exit(pid)]).owner == pid;
    Snoc(claimed + [Exit(pid)], Spawn(pid, exe));
  }
}
