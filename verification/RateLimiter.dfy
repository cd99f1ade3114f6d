/**
  The journal as the server holds it: an object whose operations update its
  fields in place. The ghost history is the run of operations so far; every
  operation leaves the fields as that run determines them.
 */
module RateLimiter {
  import opened Sequences
  import opened Wrappers
  import opened StringOrder
  import opened RateLimit
  import opened RateLimitHistory

  /** The verdict of a failure, read off the run alone. */
  lemma VerdictFollowsHistory(ops: seq<Op>, ip: Ip, now: nat)
    requires Nondecreasing(ops + [FailureOp(ip, now)])
    ensures
      var run := ops + [FailureOp(ip, now)];
      && Replay(run).recent == Window(FailuresOf(run), now)
      && FailDecision(Replay(ops), ip, now).lockedDown
         == (|Window(FailuresOf(run), now)| > GLOBAL_LOCKDOWN_THRESHOLD)
  {
    Snoc(ops, FailureOp(ip, now));
    QueueIsWindow(ops + [FailureOp(ip, now)]);
    LockdownFollowsHistory(ops, ip, now);
  }

  /** Every fifth failure of a streak, and no other, starts a cooldown. */
  lemma EveryFifthFailureCools(ops: seq<Op>, ip: Ip, now: nat)
    ensures FailDecision(Replay(ops), ip, now).cooldownUntil ==
            if |Streak(ops + [FailureOp(ip, now)], ip)| % MAX_FAILED_ATTEMPTS_PER_IP == 0
            then Some(now + COOLDOWN_SECS) else None
  {
    var run := ops + [FailureOp(ip, now)];
    Snoc(ops, FailureOp(ip, now));
    RecordIsClosedForm(ops, ip);
    NextOrdinal(|Streak(ops, ip)|);
  }

  /**
    The whole answer of a failure, told from the run: never allowed, never
    dropped, a cooldown exactly at every fifth of the streak, and locked down
    exactly when the window overflows.
   */
  lemma {:induction false} FailureAnswers(ops: seq<Op>, ip: Ip, now: nat)
    requires Nondecreasing(ops + [FailureOp(ip, now)])
    ensures
      var run := ops + [FailureOp(ip, now)];
      FailDecision(Replay(ops), ip, now) == AccessDecision(
        false,
        if |Streak(run, ip)| % 5 == 0 then Some(now + 12 * 60 * 60) else None,
        |Window(FailuresOf(run), now)| > 100,
        false)
  {
    EveryFifthFailureCools(ops, ip, now);
    VerdictFollowsHistory(ops, ip, now);
  }

  class RateLimitJournal {
    var failures: map<Ip, IpFailureRecord>
    var recentFailures: seq<FailureEvent>
    var bannedIps: set<Ip>
    var lockdown: Option<LockdownRecord>
    ghost var history: seq<Op>

    function View(): Journal
      reads this
    {
      Journal(failures, recentFailures, bannedIps, lockdown)
    }

    ghost predicate Valid()
      reads this
    {
      View() == Replay(history)
    }

    constructor ()
      ensures Valid() && history == []
    {
      failures, recentFailures, bannedIps, lockdown := map[], [], {}, None;
      history := [];
    }

    method TrimRecentFailures(now: nat)
      modifies this`recentFailures
      ensures recentFailures == TrimRecent(old(recentFailures), now)
    {
      while recentFailures != []
        invariant TrimRecent(recentFailures, now) == TrimRecent(old(recentFailures), now)
        decreases |recentFailures|
      {
        if SaturatingSub(now, recentFailures[0].at) > GLOBAL_LOCKDOWN_WINDOW_SECS {
          recentFailures := recentFailures[1..];
        } else {
          break;
        }
      }
    }

    method Check(ip: Ip, now: nat) returns (decision: AccessDecision)
      requires Valid()
      modifies this
      ensures Valid() && history == old(history) + [CheckOp(ip, now)]
      ensures Access(decision) == AnswerTo(old(View()), CheckOp(ip, now))
      ensures failures == old(failures) && bannedIps == old(bannedIps) && lockdown == old(lockdown)
      ensures Nondecreasing(history) ==> recentFailures == Window(FailuresOf(history), now)
      ensures decision.allowed <==>
              && lockdown.None?
              && ip !in bannedIps
              && (var until := CooldownOf(Streak(history, ip)); until.None? || until.value <= now)
      ensures Nondecreasing(history) ==> ChecksOut(history, ip, now, decision)
    {
      TrimRecentFailures(now);
      history := history + [CheckOp(ip, now)];
      Snoc(old(history), CheckOp(ip, now));
      RecordIsClosedForm(history, ip);
      if Nondecreasing(history) {
        QueueIsWindow(history);
        CheckAnswers(old(history), ip, now);
        CheckChangesNoAnswer(old(history), ip, now, ip, now);
      }

      if lockdown.Some? || ip in bannedIps {
        return AccessDecision(false, None, lockdown.Some?, true);
      }
      if ip in failures {
        var until := failures[ip].cooldownUntil;
        if until.Some? && until.value > now {
          return AccessDecision(false, until, false, true);
        }
      }
      return AccessDecision(true, None, false, false);
    }

    method RegisterFailure(ip: Ip, now: nat) returns (decision: AccessDecision)
      requires Valid()
      requires now + COOLDOWN_SECS <= U64_MAX
      modifies this
      ensures Valid() && history == old(history) + [FailureOp(ip, now)]
      ensures Access(decision) == AnswerTo(old(View()), FailureOp(ip, now))
      ensures Nondecreasing(history) ==> recentFailures == Window(FailuresOf(history), now)
      ensures !decision.allowed && !decision.silentlyDrop
      ensures Nondecreasing(history) ==>
              (decision.lockedDown <==> |Window(FailuresOf(history), now)| > GLOBAL_LOCKDOWN_THRESHOLD)
      ensures decision.cooldownUntil ==
              if |Streak(history, ip)| % MAX_FAILED_ATTEMPTS_PER_IP == 0 then Some(now + COOLDOWN_SECS) else None
    {
      decision := Fail(ip, now);
      history := history + [FailureOp(ip, now)];
      Snoc(old(history), FailureOp(ip, now));
      EveryFifthFailureCools(old(history), ip, now);
      if Nondecreasing(history) { VerdictFollowsHistory(old(history), ip, now); }
    }

    /** The update itself: queue, record, and lockdown if the window overflows. */
    method Fail(ip: Ip, now: nat) returns (decision: AccessDecision)
      requires now + COOLDOWN_SECS <= U64_MAX
      modifies this`failures, this`recentFailures, this`bannedIps, this`lockdown
      ensures View() == RateLimit.Fail(old(View()), ip, now)
      ensures decision == FailDecision(old(View()), ip, now)
    {
      TrimRecentFailures(now);
      recentFailures := recentFailures + [FailureEvent(ip, now)];

      var cooldownUntil := ChargeAddress(ip, now);

      if |recentFailures| > GLOBAL_LOCKDOWN_THRESHOLD {
        var offenders := CollectOffenders();
        bannedIps := bannedIps + Elements(offenders);
        lockdown := Some(LockdownRecord(now, offenders));
        return AccessDecision(false, cooldownUntil, true, false);
      }
      return AccessDecision(false, cooldownUntil, false, false);
    }

    method ChargeAddress(ip: Ip, now: nat) returns (cooldownUntil: Option<nat>)
      modifies this`failures
      ensures failures == old(failures)[ip := Charge(RecordOf(old(View()), ip), now)]
      ensures cooldownUntil == if StartsCooldown(old(View()), ip) then Some(now + COOLDOWN_SECS) else None
    {
      var record := if ip in failures then failures[ip] else IpFailureRecord(0, 0, None);
      record := record.(count := record.count + 1, lastFailure := now);
      cooldownUntil := None;
      if record.count >= MAX_FAILED_ATTEMPTS_PER_IP {
        var cooldown := now + COOLDOWN_SECS;
        record := record.(cooldownUntil := Some(cooldown), count := 0);
        cooldownUntil := Some(cooldown);
      }
      failures := failures[ip := record];
    }

    /** Gathers the queue's addresses into an ordered set, one at a time. */
    method CollectOffenders() returns (offenders: seq<Ip>)
      ensures offenders == Offenders(recentFailures)
    {
      offenders := [];
      for i := 0 to |recentFailures|
        invariant offenders == Offenders(recentFailures[..i])
      {
        Snoc(recentFailures[..i], recentFailures[i]);
        assert recentFailures[..i + 1] == recentFailures[..i] + [recentFailures[i]];
        offenders := Insert(offenders, recentFailures[i].ip);
      }
      assert recentFailures[..|recentFailures|] == recentFailures;
    }

    method RegisterSuccess(ip: Ip)
      requires Valid()
      modifies this
      ensures Valid() && history == old(history) + [SuccessOp(ip)]
      ensures Streak(history, ip) == []
      ensures View() == Succeed(old(View()), ip)
    {
      if ip in failures {
        failures := failures[ip := failures[ip].(count := 0, cooldownUntil := None)];
      }
      history := history + [SuccessOp(ip)];
      Snoc(old(history), SuccessOp(ip));
    }

    method IsLockedDown() returns (locked: bool)
      requires Valid()
      ensures locked <==> lockdown.Some?
      ensures Nondecreasing(history) ==>
              (locked <==> exists i :: 0 <= i < |history| && LatestLock(history, i))
    {
      locked := lockdown.Some?;
      if Nondecreasing(history) { LockdownIsClosedForm(history); }
    }

    method Unlock()
      requires Valid()
      modifies this
      ensures Valid() && history == old(history) + [UnlockOp]
      ensures View() == old(View()).(lockdown := None)
    {
      lockdown := None;
      history := history + [UnlockOp];
      Snoc(old(history), UnlockOp);
    }

    method Unban(ip: Ip) returns (removed: bool)
      requires Valid()
      modifies this
      ensures Valid() && history == old(history) + [UnbanOp(ip)]
      ensures removed <==> ip in old(bannedIps)
      ensures View() == old(View()).(banned := old(bannedIps) - {ip})
    {
      removed := ip in bannedIps;
      bannedIps := bannedIps - {ip};
      history := history + [UnbanOp(ip)];
      Snoc(old(history), UnbanOp(ip));
    }
  }
}
