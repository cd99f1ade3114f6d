/**
  The worker thread of one Tor session: bootstrap polling, a short phase of
  refinement, then the health monitor. Every outcome of a process check, a
  progress reading or an exit probe is an input; the health inputs are any
  finite part of the endless monitor.
 */
module TorWorker {
  import opened Sequences
  import opened Wrappers
  import opened TorSession

  datatype Startup = SpawnFailed | DiedEarly | CheckFailed | NoRuntime | NoProxyClient | Ready

  /** An exit probe that answered. The country is empty when unknown. */
  datatype Exit = Exit(ip: string, country: string)

  /** One bootstrap poll: did tor exit, what does its log say, did the probe answer. */
  datatype Poll = Poll(exited: bool, pct: nat, probe: Option<Exit>)

  /** One look after bootstrap: did tor exit, did the probe answer. */
  datatype Check = Check(exited: bool, probe: Option<Exit>)

  const BOOTSTRAP_POLLS: nat := 180
  const REFINE_POLLS: nat := 20

  // ---- the grammar of a worker's messages ----------------------------------

  ghost predicate AllPct(port: Port, sent: seq<Command>) {
    forall i :: 0 <= i < |sent| ==> sent[i].TorBootstrapPct? && sent[i].port == port
  }

  ghost predicate AllConnected(port: Port, sent: seq<Command>) {
    forall i :: 0 <= i < |sent| ==> sent[i].TorConnected? && sent[i].port == port
  }

  /** Progress reports, then connections, then possibly a failure, all for one port. */
  ghost predicate Speaks(port: Port, sent: seq<Command>, pcts: nat, connected: nat, failed: bool) {
    && |sent| == pcts + connected + (if failed then 1 else 0)
    && AllPct(port, sent[..pcts])
    && AllConnected(port, sent[pcts..pcts + connected])
    && (failed ==> Last(sent) == TorFailed(port))
  }

  /** What a worker may say in its lifetime: at most two connections. */
  ghost predicate Says(port: Port, sent: seq<Command>) {
    exists pcts: nat, connected: nat, failed: bool :: Speaks(port, sent, pcts, connected, failed) && connected <= 2
  }

  // ---- health monitor ------------------------------------------------------

  /** The monitor gives up at this tick: tor is gone, or this and the previous probe failed. */
  ghost predicate GivesUp(health: seq<Check>, i: nat)
    requires i < |health|
  {
    health[i].exited || (i > 0 && health[i].probe.None? && health[i - 1].probe.None?)
  }

  method MonitorHealth(port: Port, health: seq<Check>) returns (failed: bool, ticks: nat)
    ensures ticks <= |health|
    ensures failed ==> ticks > 0 && GivesUp(health, ticks - 1)
    ensures !failed ==> ticks == |health|
    ensures forall i :: 0 <= i < ticks - (if failed then 1 else 0) ==> !GivesUp(health, i)
  {
    var unhealthy := 0;
    ticks := 0;
    while ticks < |health|
      invariant ticks <= |health|
      invariant forall i :: 0 <= i < ticks ==> !GivesUp(health, i)
      invariant unhealthy == if ticks > 0 && health[ticks - 1].probe.None? then 1 else 0
    {
      var tick := health[ticks];
      ticks := ticks + 1;
      if tick.exited {
        return true, ticks;
      }
      if tick.probe.Some? {
        unhealthy := 0;
      } else {
        unhealthy := unhealthy + 1;
        if unhealthy >= 2 {
          return true, ticks;
        }
      }
    }
    failed := false;
  }

  // ---- bootstrap -----------------------------------------------------------

  /** The poll that ends bootstrap: tor has exited, or the probe has answered, and neither before. */
  ghost predicate FirstStop(polls: seq<Poll>, i: nat)
    requires i < |polls|
  {
    && (polls[i].exited || polls[i].probe.Some?)
    && forall j :: 0 <= j < i ==> !polls[j].exited && polls[j].probe.None?
  }

  /** Tor is running when the probe first answers. */
  ghost predicate FirstAnswer(polls: seq<Poll>, i: nat)
    requires i < |polls|
  {
    FirstStop(polls, i) && !polls[i].exited
  }

  /** The first look while tor runs at which the probe knows the country. */
  ghost predicate FirstFuller(extras: seq<Check>, k: nat)
    requires k < |extras|
  {
    && extras[k].probe.Some? && extras[k].probe.value.country != ""
    && (forall j :: 0 <= j <= k ==> !extras[j].exited)
    && forall j :: 0 <= j < k ==> extras[j].probe.None? || extras[j].probe.value.country == ""
  }

  /** The first answer says nothing of the country, and a later look does. */
  ghost predicate Improves(polls: seq<Poll>, extras: seq<Check>, i: nat, k: nat)
    requires i < |polls| && k < |extras|
  {
    FirstAnswer(polls, i) && polls[i].probe.value.country == "" && FirstFuller(extras, k)
  }

  /** One report for each poll whose progress differs from the one before. */
  function Reported(port: Port, polls: seq<Poll>): seq<Command> {
    if polls == [] then []
    else
      var shown := if |polls| == 1 then 0 else polls[|polls| - 2].pct;
      Reported(port, Front(polls)) + (if Last(polls).pct != shown then [TorBootstrapPct(port, Last(polls).pct)] else [])
  }

  /** Waits for a fuller answer; a process that dies meanwhile is left to the monitor. */
  method Refine(port: Port, extras: seq<Check>) returns (sent: seq<Command>)
    requires |extras| == REFINE_POLLS
    ensures |sent| <= 1
    ensures sent != [] <==> exists k :: 0 <= k < |extras| && FirstFuller(extras, k)
    ensures forall k :: 0 <= k < |extras| && FirstFuller(extras, k) ==>
              sent == [TorConnected(extras[k].probe.value.ip, port)]
  {
    sent := [];
    for i := 0 to REFINE_POLLS
      invariant sent == []
      invariant forall j :: 0 <= j < i ==>
                  !extras[j].exited && !(extras[j].probe.Some? && extras[j].probe.value.country != "")
    {
      if extras[i].exited {
        assert forall k :: 0 <= k < |extras| && FirstFuller(extras, k) ==> i <= k;
        return;
      }
      if extras[i].probe.Some? && extras[i].probe.value.country != "" {
        sent := [TorConnected(extras[i].probe.value.ip, port)];
        assert FirstFuller(extras, i);
        return;
      }
    }
  }

  datatype BootstrapEnd = TorExited | Resolved(exit: Exit) | NeverResolved

  /** Progress is reported only when it changes. */
  ghost predicate Stepwise(sent: seq<Command>) {
    forall i, j :: 0 <= i < j < |sent| && j == i + 1 ==>
      sent[i].TorBootstrapPct? && sent[j].TorBootstrapPct? && sent[i].pct != sent[j].pct
  }

  function Shown(polls: seq<Poll>): nat {
    if polls == [] then 0 else Last(polls).pct
  }

  /** The reports change from one to the next, and the last one is up to date. */
  lemma {:induction false} ReportsAreChanges(port: Port, polls: seq<Poll>)
    ensures AllPct(port, Reported(port, polls)) && Stepwise(Reported(port, polls))
    ensures Shown(polls) == if Reported(port, polls) == [] then 0 else Last(Reported(port, polls)).pct
  {
    if polls == [] {
    } else {
      ReportsAreChanges(port, Front(polls));
    }
  }

  method PollBootstrap(port: Port, polls: seq<Poll>) returns (sent: seq<Command>, end: BootstrapEnd, used: nat)
    requires |polls| == BOOTSTRAP_POLLS
    ensures AllPct(port, sent) && Stepwise(sent)
    ensures used <= BOOTSTRAP_POLLS
    ensures end.TorExited? ==> used > 0 && FirstStop(polls, used - 1) && polls[used - 1].exited
    ensures end.Resolved? ==> used > 0 && FirstAnswer(polls, used - 1) && polls[used - 1].probe == Some(end.exit)
    ensures end.NeverResolved? ==> used == BOOTSTRAP_POLLS && forall i :: 0 <= i < used ==> !FirstStop(polls, i)
    ensures sent == Reported(port, polls[..if end.TorExited? then used - 1 else used])
    ensures !end.TorExited? && used > 0 ==>
              polls[used - 1].pct == if sent == [] then 0 else Last(sent).pct
  {
    sent := [];
    var lastPct := 0;
    used := 0;
    while used < BOOTSTRAP_POLLS
      invariant used <= BOOTSTRAP_POLLS
      invariant forall i :: 0 <= i < used ==> !polls[i].exited && polls[i].probe.None?
      invariant lastPct == Shown(polls[..used])
      invariant sent == Reported(port, polls[..used])
    {
      ReportsAreChanges(port, polls[..used]);
      ReportsAreChanges(port, polls[..used + 1]);
      TakeNext(polls, used);
      var poll := polls[used];
      used := used + 1;
      if poll.exited {
        end := TorExited;
        return;
      }
      if poll.pct != lastPct {
        lastPct := poll.pct;
        sent := sent + [TorBootstrapPct(port, poll.pct)];
      }
      if poll.probe.Some? {
        end := Resolved(poll.probe.value);
        return;
      }
    }
    ReportsAreChanges(port, polls[..used]);
    end := NeverResolved;
  }

  // ---- the whole worker ----------------------------------------------------

  /** What was sent of the connection, told from the polls and the later looks. */
  ghost predicate ReportsConnection(port: Port, polls: seq<Poll>, extras: seq<Check>, reports: seq<Command>) {
    && (reports == [] <==> exists i :: 0 <= i < |polls| && FirstStop(polls, i) && polls[i].exited)
    && (forall i :: 0 <= i < |polls| && FirstAnswer(polls, i) ==>
          reports != [] && reports[0] == TorConnected(polls[i].probe.value.ip, port))
    && ((forall i :: 0 <= i < |polls| ==> !FirstStop(polls, i)) ==> reports == [TorConnected("Unknown IP", port)])
    && (|reports| == 2 <==>
          exists i, k :: 0 <= i < |polls| && 0 <= k < |extras| && Improves(polls, extras, i, k))
    && (forall i, k :: 0 <= i < |polls| && 0 <= k < |extras| && Improves(polls, extras, i, k) ==>
          |reports| == 2 && reports[1] == TorConnected(extras[k].probe.value.ip, port))
  }

  lemma {:induction false} OneStop(polls: seq<Poll>, i: nat, j: nat)
    requires i < |polls| && j < |polls| && FirstStop(polls, i) && FirstStop(polls, j)
    ensures i == j
  {
  }

  /** Bootstrap up to the first report that follows it, and what refinement adds. */
  method ReportConnection(port: Port, polls: seq<Poll>, extras: seq<Check>, end: BootstrapEnd, ghost used: nat)
    returns (reports: seq<Command>)
    requires |polls| == BOOTSTRAP_POLLS && |extras| == REFINE_POLLS && used <= BOOTSTRAP_POLLS && !end.TorExited?
    requires end.Resolved? ==> used > 0 && FirstAnswer(polls, used - 1) && polls[used - 1].probe == Some(end.exit)
    requires end.NeverResolved? ==> forall i :: 0 <= i < |polls| ==> !FirstStop(polls, i)
    ensures 1 <= |reports| <= 2 && AllConnected(port, reports)
    ensures ReportsConnection(port, polls, extras, reports)
  {
    forall i, j | 0 <= i < |polls| && 0 <= j < |polls| && FirstStop(polls, i) && FirstStop(polls, j) ensures i == j {
      OneStop(polls, i, j);
    }
    if end.Resolved? {
      reports := [TorConnected(end.exit.ip, port)];
      if end.exit.country == "" {
        var better := Refine(port, extras);
        if k :| 0 <= k < |extras| && FirstFuller(extras, k) { assert Improves(polls, extras, used - 1, k); }
        reports := reports + better;
      }
    } else {
      reports := [TorConnected("Unknown IP", port)];
    }
  }

  /**
    Whatever happens to the process and the probes, the worker says progress
    reports, then at most two connections, then at most one failure, and
    nothing after it. The progress is that of the polls up to the one that
    ends bootstrap; the connections are the exits found; and a worker that got
    as far as the monitor fails exactly when the monitor gives up.
   */
  method RunWorker(port: Port, startup: Startup, polls: seq<Poll>, extras: seq<Check>, health: seq<Check>)
    returns (sent: seq<Command>, pcts: nat, connected: nat, failed: bool)
    requires |polls| == BOOTSTRAP_POLLS && |extras| == REFINE_POLLS
    ensures Speaks(port, sent, pcts, connected, failed)
    ensures connected <= 2
    ensures Says(port, sent)
    ensures !startup.Ready? ==> sent == [TorFailed(port)]
    ensures startup.Ready? ==> ReportsConnection(port, polls, extras, sent[pcts..pcts + connected])
    ensures startup.Ready? ==> forall i :: 0 <= i < |polls| && FirstStop(polls, i) ==>
              sent[..pcts] == Reported(port, polls[..if polls[i].exited then i else i + 1])
    ensures startup.Ready? && (forall i :: 0 <= i < |polls| ==> !FirstStop(polls, i)) ==>
              sent[..pcts] == Reported(port, polls)
    ensures startup.Ready? && connected == 0 ==> failed
    ensures connected > 0 ==> (failed <==> exists i :: 0 <= i < |health| && GivesUp(health, i))
  {
    if !startup.Ready? {
      sent, pcts, connected, failed := [TorFailed(port)], 0, 0, true;
      assert Speaks(port, sent, pcts, connected, failed);
      return;
    }
    var end, used;
    sent, end, used := PollBootstrap(port, polls);
    pcts := |sent|;
    forall i | 0 <= i < |polls| && used > 0 && FirstStop(polls, i) && FirstStop(polls, used - 1) ensures i == used - 1 {
      OneStop(polls, i, used - 1);
    }
    assert polls[..|polls|] == polls;
    ghost var pct := sent;
    var reports := [];
    failed := true;
    if !end.TorExited? {
      reports := ReportConnection(port, polls, extras, end, used);
      var ticks;
      failed, ticks := MonitorHealth(port, health);
      if failed { assert GivesUp(health, ticks - 1); }
    }
    connected := |reports|;
    sent := sent + reports + (if failed then [TorFailed(port)] else []);
    assert sent[..pcts] == pct;
    assert sent[pcts..pcts + connected] == reports;
    assert Speaks(port, sent, pcts, connected, failed);
  }
}
