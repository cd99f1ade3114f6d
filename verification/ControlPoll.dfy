/**
  The status poll of a control-plane session: two code paths, one for
  unreachable servers and one for answers, share a failure counter and a phase.
 */
module ControlPoll {
  import opened ConnectionPhases
  import opened Sequences
  import opened Wrappers

  const U32_MAX: nat := 0xFFFF_FFFF
  const FAILURES_TO_ERROR: nat := 4

  datatype Connection = Connection(
    serverId: string, phase: Phase, attemptCount: nat,
    sessionId: Option<string>, cooldownUntil: Option<nat>)

  datatype Lease = Lease(serverId: string, sessionId: string)

  datatype Answer = Unreachable | Status(lockedDown: bool, lease: Option<Lease>)

  /** `u32::saturating_add(1)` */
  function SaturatingNext(n: nat): nat {
    if n >= U32_MAX then U32_MAX else n + 1
  }

  function Missed(c: Connection): Connection {
    var count := SaturatingNext(c.attemptCount);
    c.(attemptCount := count, phase := if count >= FAILURES_TO_ERROR then Error else Reconnecting)
  }

  function Consumed(c: Connection, s: Answer): Connection
    requires s.Status?
  {
    if s.lockedDown then c.(phase := Error)
    else if s.lease.Some? then
      c.(serverId := s.lease.value.serverId, sessionId := Some(s.lease.value.sessionId),
         phase := Connected, attemptCount := 0, cooldownUntil := None)
    else if c.attemptCount >= FAILURES_TO_ERROR - 1 then
      c.(phase := Error, attemptCount := SaturatingNext(c.attemptCount))
    else
      c.(phase := Reconnecting, attemptCount := SaturatingNext(c.attemptCount))
  }

  /** One poll; the answer is not asked for while cooling down or without a session. */
  function Polled(active: Option<Connection>, now: nat, answer: Answer): Option<Connection> {
    if active.None? then None
    else
      var c := active.value;
      if c.phase == Cooldown then
        if c.cooldownUntil.Some? && c.cooldownUntil.value <= now then None else active
      else if c.sessionId.None? then active
      else Some(if answer.Unreachable? then Missed(c) else Consumed(c, answer))
  }

  class ControlBackend {
    var activeConnection: Option<Connection>

    constructor (c: Option<Connection>)
      ensures activeConnection == c
    {
      activeConnection := c;
    }

    method PollActiveConnection(now: nat, answer: Answer)
      modifies this
      ensures activeConnection == Polled(old(activeConnection), now, answer)
    {
      if activeConnection.None? {
        return;
      }
      var active := activeConnection.value;
      if active.phase == Cooldown {
        if active.cooldownUntil.Some? && active.cooldownUntil.value <= now {
          activeConnection := None;
        }
        return;
      }
      if active.sessionId.None? {
        return;
      }
      match answer {
        case Status(_, _) => ConsumeStatus(active, answer);
        case Unreachable =>
          var connection := active.(phase := Reconnecting, attemptCount := SaturatingNext(active.attemptCount));
          if connection.attemptCount >= 4 {
            connection := connection.(phase := Error);
          }
          activeConnection := Some(connection);
      }
    }

    method ConsumeStatus(previous: Connection, status: Answer)
      requires status.Status?
      modifies this
      ensures activeConnection == Some(Consumed(previous, status))
    {
      if status.lockedDown {
        activeConnection := Some(previous.(phase := Error));
        return;
      }
      if status.lease.Some? {
        var lease := status.lease.value;
        activeConnection := Some(
          Connection(lease.serverId, Connected, 0, Some(lease.sessionId), None));
      } else if previous.attemptCount >= 3 {
        activeConnection := Some(previous.(phase := Error, attemptCount := SaturatingNext(previous.attemptCount)));
      } else {
        var attempts := SaturatingNext(previous.attemptCount);
        activeConnection := Some(previous.(phase := Reconnecting, attemptCount := attempts));
      }
    }
  }

  // ---- whole runs ----------------------------------------------------------

  predicate Leases(a: Answer) {
    a.Status? && !a.lockedDown && a.lease.Some?
  }

  /** Timeouts and answers without a session; a lockdown answer is neither failure nor lease. */
  predicate Fails(a: Answer) {
    a.Unreachable? || (!a.lockedDown && a.lease.None?)
  }

  function FailuresSinceLease(answers: seq<Answer>): nat {
    if answers == [] || Leases(Last(answers)) then 0
    else FailuresSinceLease(Front(answers)) + (if Fails(Last(answers)) then 1 else 0)
  }

  function Saturated(n: nat): nat {
    if n > 0xFFFF_FFFF then 0xFFFF_FFFF else n
  }

  function PhaseAfter(answers: seq<Answer>): Phase {
    if answers == [] || Leases(Last(answers)) then Connected
    else if Fails(Last(answers)) && FailuresSinceLease(answers) < 4 then Reconnecting
    else Error
  }

  function PollAll(c: Connection, polls: seq<(nat, Answer)>): Option<Connection> {
    if polls == [] then Some(c)
    else Polled(PollAll(c, Front(polls)), Last(polls).0, Last(polls).1)
  }

  function AnswersOf(polls: seq<(nat, Answer)>): seq<Answer> {
    if polls == [] then [] else AnswersOf(Front(polls)) + [Last(polls).1]
  }

  /** A session the server has just leased. */
  ghost predicate JustLeased(c: Connection) {
    c.phase == Connected && c.attemptCount == 0 && c.sessionId.Some?
  }

  /**
    From a leased session on, whichever of the two paths each poll takes, the
    counter is the number of failed polls since the latest lease, and the
    phase is Error after a failed poll exactly when that number has reached
    four (or after a lockdown), Reconnecting after an earlier failure, and
    Connected after a lease. The session is never dropped by polling.
   */
  lemma {:induction false} PollsCountFailures(c: Connection, polls: seq<(nat, Answer)>)
    requires JustLeased(c)
    ensures
      var now := PollAll(c, polls);
      var answers := AnswersOf(polls);
      && now.Some?
      && now.value.sessionId.Some?
      && now.value.attemptCount == Saturated(FailuresSinceLease(answers))
      && now.value.phase == PhaseAfter(answers)
  {
    if polls == [] {
    } else {
      PollsCountFailures(c, Front(polls));
      Snoc(AnswersOf(Front(polls)), Last(polls).1);
    }
  }

  function LatestLease(answers: seq<Answer>): Option<Lease> {
    if answers == [] then None
    else if Leases(Last(answers)) then Last(answers).lease
    else LatestLease(Front(answers))
  }

  /**
    From a leased session on, the connection is always that of the latest
    lease: its server and its session, and no cooldown from before it.
   */
  lemma {:induction false} PollsKeepLatestLease(c: Connection, polls: seq<(nat, Answer)>)
    requires JustLeased(c)
    ensures
      var now, lease := PollAll(c, polls), LatestLease(AnswersOf(polls));
      && now.Some?
      && now.value.serverId == (if lease.Some? then lease.value.serverId else c.serverId)
      && now.value.sessionId == (if lease.Some? then Some(lease.value.sessionId) else c.sessionId)
      && now.value.cooldownUntil == (if lease.Some? then None else c.cooldownUntil)
  {
    if polls == [] {
    } else {
      PollsKeepLatestLease(c, Front(polls));
      PollsCountFailures(c, Front(polls));
      Snoc(AnswersOf(Front(polls)), Last(polls).1);
    }
  }

  /** Some poll comes at or after the end of the cooldown. */
  ghost predicate RunsOut(c: Connection, polls: seq<(nat, Answer)>) {
    c.cooldownUntil.Some? && exists i :: 0 <= i < |polls| && c.cooldownUntil.value <= polls[i].0
  }

  /**
    A cooling connection is left as it is, whatever a server would answer,
    until the first poll at or after the end of its cooldown, and is gone from
    then on; without an end it stays for good.
   */
  lemma {:induction false} CooldownRunsOut(c: Connection, polls: seq<(nat, Answer)>)
    requires c.phase == Cooldown
    ensures PollAll(c, polls) == if RunsOut(c, polls) then None else Some(c)
  {
    if polls == [] {
    } else {
      var before, last := Front(polls), Last(polls);
      CooldownRunsOut(c, before);
      assert forall i :: 0 <= i < |before| ==> before[i] == polls[i];
      assert last == polls[|polls| - 1];
      if RunsOut(c, polls) && !RunsOut(c, before) {
        var i :| 0 <= i < |polls| && c.cooldownUntil.value <= polls[i].0;
        assert i == |polls| - 1;
      }
    }
  }

  /** A connection that never had a session is left alone. */
  lemma {:induction false} NoSessionNoPoll(c: Connection, polls: seq<(nat, Answer)>)
    requires c.phase != Cooldown && c.sessionId.None?
    ensures PollAll(c, polls) == Some(c)
  {
    if polls == [] {
    } else {
      NoSessionNoPoll(c, Front(polls));
    }
  }
}
