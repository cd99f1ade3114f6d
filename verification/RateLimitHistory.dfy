/**
  Closed forms: every part of the journal as a function of the whole run,
  independent of the trimming and the counter arithmetic that produced it.
 */
module RateLimitHistory {
  import opened Sequences
  import opened Wrappers
  import opened StringOrder
  import opened RateLimit

  /** Every failure ever registered, oldest first. */
  function FailuresOf(ops: seq<Op>): seq<FailureEvent> {
    if ops == [] then []
    else FailuresOf(Front(ops)) +
         (if Last(ops).FailureOp? then [FailureEvent(Last(ops).ip, Last(ops).at)] else [])
  }

  /** The events at most 24 hours old, in order. */
  function Window(evs: seq<FailureEvent>, now: nat): seq<FailureEvent> {
    if evs == [] then []
    else Window(Front(evs), now) + (if Expired(Last(evs), now) then [] else [Last(evs)])
  }

  /** Times of the address's failures since its latest success. */
  function Streak(ops: seq<Op>, ip: Ip): seq<nat> {
    if ops == [] then []
    else
      var before := Streak(Front(ops), ip);
      match Last(ops)
      case FailureOp(i, at) => if i == ip then before + [at] else before
      case SuccessOp(i) => if i == ip then [] else before
      case _ => before
  }

  /** The address's latest failure, if it ever failed. */
  function LatestFailure(ops: seq<Op>, ip: Ip): Option<nat> {
    if ops == [] then None
    else match Last(ops)
      case FailureOp(i, at) => if i == ip then Some(at) else LatestFailure(Front(ops), ip)
      case _ => LatestFailure(Front(ops), ip)
  }

  // ---- the deque -----------------------------------------------------------

  /** Trimming now is absorbed by trimming later. */
  lemma {:induction false} TrimAbsorbed(q: seq<FailureEvent>, now: nat, later: nat)
    requires now <= later
    ensures TrimRecent(TrimRecent(q, now), later) == TrimRecent(q, later)
  {
    if q != [] && Expired(q[0], now) {
      TrimAbsorbed(q[1..], now, later);
    }
  }

  lemma {:induction false} TrimKeepsFresh(q: seq<FailureEvent>, e: FailureEvent, now: nat)
    requires !Expired(e, now)
    ensures TrimRecent(q + [e], now) == TrimRecent(q, now) + [e]
  {
    if q == [] {
      assert q + [e] == [e];
    } else {
      assert (q + [e])[0] == q[0];
      if Expired(q[0], now) {
        assert (q + [e])[1..] == q[1..] + [e];
        TrimKeepsFresh(q[1..], e, now);
      }
    }
  }

  lemma {:induction false} QueueIsTrimmedHistory(ops: seq<Op>)
    requires Nondecreasing(ops)
    ensures Replay(ops).recent == TrimRecent(FailuresOf(ops), Clock(ops))
  {
    if ops == [] {
    } else {
      var before, op := Front(ops), Last(ops);
      QueueIsTrimmedHistory(before);
      assert FailuresOf(before) + [] == FailuresOf(before);
      if op.Timed() {
        TrimAbsorbed(FailuresOf(before), Clock(before), op.at);
        if op.FailureOp? {
          TrimKeepsFresh(FailuresOf(before), FailureEvent(op.ip, op.at), op.at);
        }
      }
    }
  }

  ghost predicate InOrder(evs: seq<FailureEvent>) {
    forall i, j :: 0 <= i < j < |evs| ==> evs[i].at <= evs[j].at
  }

  lemma {:induction false} FailuresInOrder(ops: seq<Op>)
    requires Nondecreasing(ops)
    ensures InOrder(FailuresOf(ops))
    ensures forall e :: e in FailuresOf(ops) ==> e.at <= Clock(ops)
  {
    if ops == [] {
    } else {
      FailuresInOrder(Front(ops));
    }
  }

  /** Front-trimming an ordered history is filtering it by age. */
  lemma {:induction false} TrimIsWindow(evs: seq<FailureEvent>, now: nat)
    requires InOrder(evs)
    ensures TrimRecent(evs, now) == Window(evs, now)
  {
    if evs == [] {
    } else {
      var e := Last(evs);
      assert evs == Front(evs) + [e];
      TrimIsWindow(Front(evs), now);
      if Expired(e, now) {
        AllExpired(evs, now);
        AllExpired(Front(evs), now);
      } else {
        TrimKeepsFresh(Front(evs), e, now);
      }
    }
  }

  lemma {:induction false} AllExpired(evs: seq<FailureEvent>, now: nat)
    requires forall e :: e in evs ==> Expired(e, now)
    ensures TrimRecent(evs, now) == []
  {
    if evs == [] {
    } else {
      AllExpired(evs[1..], now);
    }
  }

  /**
    The deque refines the history: after any run with nondecreasing times it
    holds exactly the failures at most 24 hours older than the latest time.
   */
  lemma QueueIsWindow(ops: seq<Op>)
    requires Nondecreasing(ops)
    ensures Replay(ops).recent == Window(FailuresOf(ops), Clock(ops))
  {
    QueueIsTrimmedHistory(ops);
    FailuresInOrder(ops);
    TrimIsWindow(FailuresOf(ops), Clock(ops));
  }

  lemma {:induction false} OffendersAreDistinct(q: seq<FailureEvent>)
    ensures Ascending(Offenders(q))
    ensures Elements(Offenders(q)) == set e | e in q :: e.ip
  {
    if q == [] {
    } else {
      var init, e := Front(q), Last(q);
      OffendersAreDistinct(init);
      InsertKeepsSet(Offenders(init), e.ip);
      assert q == init + [e];
      assert (set x | x in q :: x.ip) == (set x | x in init :: x.ip) + {e.ip};
    }
  }

  /**
    A failure locks the server down exactly when more than 100 failures are
    at most 24 hours old; it then lists precisely their distinct addresses,
    each once in ascending order, and bans all of them and nobody else.
   */
  lemma LockdownFollowsHistory(ops: seq<Op>, ip: Ip, now: nat)
    requires Nondecreasing(ops + [FailureOp(ip, now)])
    ensures
      var run := ops + [FailureOp(ip, now)];
      var window := Window(FailuresOf(run), now);
      var ips := set e | e in window :: e.ip;
      var before, after := Replay(ops), Replay(run);
      && FailDecision(before, ip, now).lockedDown == (|window| > GLOBAL_LOCKDOWN_THRESHOLD)
      && (|window| > GLOBAL_LOCKDOWN_THRESHOLD ==>
            && after.lockdown.Some?
            && after.lockdown.value.triggeredAt == now
            && Ascending(after.lockdown.value.offenderIps)
            && Elements(after.lockdown.value.offenderIps) == ips
            && after.banned == before.banned + ips)
      && (|window| <= GLOBAL_LOCKDOWN_THRESHOLD ==>
            after.lockdown == before.lockdown && after.banned == before.banned)
  {
    var run := ops + [FailureOp(ip, now)];
    Snoc(ops, FailureOp(ip, now));
    QueueIsWindow(run);
    OffendersAreDistinct(Replay(run).recent);
  }

  // ---- lockdown and bans over the whole run --------------------------------

  /** The events in the 24 hours up to the operation at the index, that operation included. */
  function WindowAt(ops: seq<Op>, i: nat): seq<FailureEvent>
    requires i < |ops| && ops[i].Timed()
  {
    Window(FailuresOf(ops[..i + 1]), ops[i].at)
  }

  /** A failure that finds more than 100 failures in its window. */
  predicate LocksAt(ops: seq<Op>, i: nat)
    requires i < |ops|
  {
    ops[i].FailureOp? && |WindowAt(ops, i)| > GLOBAL_LOCKDOWN_THRESHOLD
  }

  /** The addresses that failure locks out. */
  ghost predicate LocksOut(ops: seq<Op>, i: nat, ip: Ip)
    requires i < |ops|
  {
    LocksAt(ops, i) && exists e :: e in WindowAt(ops, i) && e.ip == ip
  }

  /** The latest locking failure, with no unlock since. */
  ghost predicate LatestLock(ops: seq<Op>, i: nat)
    requires i < |ops|
  {
    LocksAt(ops, i) && forall k :: i < k < |ops| ==> !LocksAt(ops, k) && ops[k] != UnlockOp
  }

  /** A failure locked the address out, and it has not been unbanned since. */
  ghost predicate BannedSince(ops: seq<Op>, i: nat, ip: Ip)
    requires i < |ops|
  {
    LocksOut(ops, i, ip) && forall k :: i < k < |ops| ==> ops[k] != UnbanOp(ip)
  }

  lemma {:induction false} PrefixLocks(ops: seq<Op>, i: nat, ip: Ip)
    requires i < |ops| - 1
    ensures LocksAt(ops, i) == LocksAt(Front(ops), i)
    ensures LocksOut(ops, i, ip) == LocksOut(Front(ops), i, ip)
  {
    assert Front(ops)[..i + 1] == ops[..i + 1];
  }

  /** What the last operation does to the lockdown record and the ban set. */
  lemma {:induction false} LastStepLocks(ops: seq<Op>, ip: Ip)
    requires ops != [] && Nondecreasing(ops)
    ensures
      var n := |ops| - 1;
      var before, after := Replay(Front(ops)), Replay(ops);
      && (LocksAt(ops, n) ==> Records(ops, n, after.lockdown))
      && (!LocksAt(ops, n) ==> after.lockdown == if ops[n] == UnlockOp then None else before.lockdown)
      && (ip in after.banned <==>
            LocksOut(ops, n, ip) || (ip in before.banned && ops[n] != UnbanOp(ip)))
  {
    var n := |ops| - 1;
    assert ops == Front(ops) + [ops[n]] && ops[..n + 1] == ops;
    if ops[n].FailureOp? {
      LockdownFollowsHistory(Front(ops), ops[n].ip, ops[n].at);
    }
  }

  /** The record of the locking failure at the index: its time, and its window's addresses in order. */
  ghost predicate Records(ops: seq<Op>, i: nat, lockdown: Option<LockdownRecord>)
    requires i < |ops| && ops[i].FailureOp?
  {
    && lockdown.Some?
    && lockdown.value.triggeredAt == ops[i].at
    && Ascending(lockdown.value.offenderIps)
    && Elements(lockdown.value.offenderIps) == set e | e in WindowAt(ops, i) :: e.ip
  }

  /** The index of the latest locking failure, if no unlock has followed. */
  function LatestLockIndex(ops: seq<Op>): (r: Option<nat>)
    ensures r.Some? ==> r.value < |ops|
  {
    if ops == [] then None
    else if LocksAt(ops, |ops| - 1) then Some(|ops| - 1)
    else if Last(ops) == UnlockOp then None
    else LatestLockIndex(Front(ops))
  }

  lemma {:induction false} LatestLockFront(ops: seq<Op>, i: nat)
    requires i < |ops| - 1
    ensures LatestLock(ops, i) <==>
            LatestLock(Front(ops), i) && !LocksAt(ops, |ops| - 1) && ops[|ops| - 1] != UnlockOp
    ensures LocksAt(ops, i) ==> WindowAt(ops, i) == WindowAt(Front(ops), i)
  {
    var n, before := |ops| - 1, Front(ops);
    assert before[..i + 1] == ops[..i + 1];
    forall k | 0 <= k < n ensures LocksAt(ops, k) == LocksAt(before, k) && ops[k] == before[k] {
      PrefixLocks(ops, k, "");
    }
  }

  lemma {:induction false} LatestLockIsAtIndex(ops: seq<Op>, i: nat)
    requires i < |ops|
    ensures LatestLock(ops, i) <==> LatestLockIndex(ops) == Some(i)
  {
    if i < |ops| - 1 {
      LatestLockFront(ops, i);
      LatestLockIsAtIndex(Front(ops), i);
    }
  }

  lemma {:induction false} RecordOfLatestLock(ops: seq<Op>)
    requires Nondecreasing(ops)
    ensures
      var latest := LatestLockIndex(ops);
      if latest.None? then Replay(ops).lockdown == None
      else LocksAt(ops, latest.value) && Records(ops, latest.value, Replay(ops).lockdown)
  {
    if ops == [] {
    } else {
      RecordOfLatestLock(Front(ops));
      LastStepLocks(ops, "");
      var latest := LatestLockIndex(ops);
      if latest.Some? && latest.value < |ops| - 1 {
        assert Front(ops)[..latest.value + 1] == ops[..latest.value + 1];
      }
    }
  }

  /**
    The lockdown record in closed form: it stands exactly when some failure
    locked down and no unlock has followed, and it is the record of the latest
    such failure.
   */
  lemma {:induction false} LockdownIsClosedForm(ops: seq<Op>)
    requires Nondecreasing(ops)
    ensures Replay(ops).lockdown.Some? <==> exists i :: 0 <= i < |ops| && LatestLock(ops, i)
    ensures forall i :: 0 <= i < |ops| && LatestLock(ops, i) ==> Records(ops, i, Replay(ops).lockdown)
  {
    RecordOfLatestLock(ops);
    forall i | 0 <= i < |ops| ensures LatestLock(ops, i) <==> LatestLockIndex(ops) == Some(i) {
      LatestLockIsAtIndex(ops, i);
    }
  }

  lemma {:induction false} BannedSinceFront(ops: seq<Op>, i: nat, ip: Ip)
    requires i < |ops| - 1
    ensures BannedSince(ops, i, ip) <==> BannedSince(Front(ops), i, ip) && ops[|ops| - 1] != UnbanOp(ip)
  {
    PrefixLocks(ops, i, ip);
    assert forall k :: 0 <= k < |ops| - 1 ==> ops[k] == Front(ops)[k];
    if BannedSince(ops, i, ip) { assert ops[|ops| - 1] != UnbanOp(ip); }
  }

  /**
    The ban set in closed form: an address is banned exactly when some failure
    locked it out and no unban has followed.
   */
  lemma {:induction false} BansAreClosedForm(ops: seq<Op>, ip: Ip)
    requires Nondecreasing(ops)
    ensures ip in Replay(ops).banned <==> exists i :: 0 <= i < |ops| && BannedSince(ops, i, ip)
  {
    if ops == [] {
    } else {
      var n, before := |ops| - 1, Front(ops);
      BansAreClosedForm(before, ip);
      LastStepLocks(ops, ip);
      forall i | 0 <= i < n
        ensures BannedSince(ops, i, ip) <==> BannedSince(before, i, ip) && ops[n] != UnbanOp(ip)
      {
        BannedSinceFront(ops, i, ip);
      }
      assert BannedSince(ops, n, ip) <==> LocksOut(ops, n, ip);
    }
  }

  // ---- the per-address record ----------------------------------------------

  /** When the cooldown earned by these failures ends. */
  function CooldownOf(streak: seq<nat>): Option<nat> {
    if |streak| < MAX_FAILED_ATTEMPTS_PER_IP then None
    else Some(streak[|streak| - |streak| % MAX_FAILED_ATTEMPTS_PER_IP - 1] + COOLDOWN_SECS)
  }

  /**
    The record in closed form: it exists once the address has failed; its
    count is the number of failures since the latest success modulo five; and
    its cooldown dates from the latest failure since then whose ordinal is a
    multiple of five.
   */
  lemma {:induction false} RecordIsClosedForm(ops: seq<Op>, ip: Ip)
    ensures
      var r := RecordOf(Replay(ops), ip);
      var streak := Streak(ops, ip);
      && (r.Some? <==> LatestFailure(ops, ip).Some?)
      && (r.None? ==> streak == [])
      && (r.Some? ==>
            && r.value.count == |streak| % MAX_FAILED_ATTEMPTS_PER_IP
            && Some(r.value.lastFailure) == LatestFailure(ops, ip)
            && r.value.cooldownUntil == CooldownOf(streak))
  {
    if ops == [] {
    } else {
      var before, op := Front(ops), Last(ops);
      RecordIsClosedForm(before, ip);
      if op.FailureOp? && op.ip == ip {
        ChargeExtendsStreak(RecordOf(Replay(before), ip), Streak(before, ip), op.at);
      }
    }
  }

  lemma NextOrdinal(n: nat)
    ensures (n + 1) % MAX_FAILED_ATTEMPTS_PER_IP ==
            if n % MAX_FAILED_ATTEMPTS_PER_IP == 4 then 0 else n % MAX_FAILED_ATTEMPTS_PER_IP + 1
  {
  }

  lemma ChargeExtendsStreak(r: Option<IpFailureRecord>, streak: seq<nat>, now: nat)
    requires r.None? ==> streak == []
    requires r.Some? ==> r.value.count == |streak| % MAX_FAILED_ATTEMPTS_PER_IP
    requires r.Some? ==> r.value.cooldownUntil == CooldownOf(streak)
    ensures Charge(r, now).count == |streak + [now]| % MAX_FAILED_ATTEMPTS_PER_IP
    ensures Charge(r, now).cooldownUntil == CooldownOf(streak + [now])
    ensures Charge(r, now).lastFailure == now
  {
    NextOrdinal(|streak|);
  }

  // ---- what callers are told -----------------------------------------------

  ghost predicate LockedBy(ops: seq<Op>) {
    exists i :: 0 <= i < |ops| && LatestLock(ops, i)
  }

  ghost predicate BannedBy(ops: seq<Op>, ip: Ip) {
    exists i :: 0 <= i < |ops| && BannedSince(ops, i, ip)
  }

  /** The end of the address's cooldown, if that lies ahead. */
  function CooldownAhead(ops: seq<Op>, ip: Ip, now: nat): Option<nat> {
    var until := CooldownOf(Streak(ops, ip));
    if until.Some? && until.value > now then until else None
  }

  /**
    The whole answer of a check, told from the run. An address is refused
    exactly when the server is locked down, or the address is banned or cooling
    down; whoever is refused is dropped silently; only a cooling address is
    told until when, and only in a lockdown is there talk of one.
   */
  ghost predicate ChecksOut(ops: seq<Op>, ip: Ip, now: nat, d: AccessDecision) {
    && (d.allowed <==> !LockedBy(ops) && !BannedBy(ops, ip) && CooldownAhead(ops, ip, now).None?)
    && (d.silentlyDrop <==> !d.allowed)
    && (d.lockedDown <==> LockedBy(ops))
    && d.cooldownUntil == if LockedBy(ops) || BannedBy(ops, ip) then None else CooldownAhead(ops, ip, now)
  }

  lemma {:induction false} CheckAnswers(ops: seq<Op>, ip: Ip, now: nat)
    requires Nondecreasing(ops)
    ensures ChecksOut(ops, ip, now, Admit(Replay(ops), ip, now))
  {
    LockdownIsClosedForm(ops);
    BansAreClosedForm(ops, ip);
    RecordIsClosedForm(ops, ip);
  }

  /** A check leaves no trace in what later checks are told. */
  lemma {:induction false} CheckChangesNoAnswer(ops: seq<Op>, ip: Ip, now: nat, who: Ip, later: nat)
    requires Nondecreasing(ops + [CheckOp(ip, now)])
    ensures LockedBy(ops + [CheckOp(ip, now)]) == LockedBy(ops)
    ensures BannedBy(ops + [CheckOp(ip, now)], who) == BannedBy(ops, who)
    ensures CooldownAhead(ops + [CheckOp(ip, now)], who, later) == CooldownAhead(ops, who, later)
  {
    Snoc(ops, CheckOp(ip, now));
    LockdownIsClosedForm(ops);
    LockdownIsClosedForm(ops + [CheckOp(ip, now)]);
    BansAreClosedForm(ops, who);
    BansAreClosedForm(ops + [CheckOp(ip, now)], who);
  }
}
