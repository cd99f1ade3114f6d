/**
  The bounds are attained: an address can use all the failures they allow, and
  seven addresses that do are enough to lock the server down.
 */
module RateLimitSharpness {
  import opened Sequences
  import opened StringOrder
  import opened RateLimit
  import opened RateLimitHistory
  import opened RateLimitBounds

  /** A gated run without successes that has registered n failures and locked nobody out for good. */
  ghost predicate Open(ops: seq<Op>, now: nat, n: nat) {
    && Gated(ops) && Nondecreasing(ops)
    && (forall i :: 0 <= i < |ops| ==> !ops[i].SuccessOp?)
    && Clock(ops) <= now
    && Replay(ops).lockdown.None? && Replay(ops).banned == {}
    && |FailuresOf(ops)| == n
  }

  /** The address is not cooling down. */
  ghost predicate Free(ops: seq<Op>, ip: Ip, now: nat) {
    var until := CooldownOf(Streak(ops, ip));
    until.Some? ==> until.value <= now
  }

  /** The failures added to a run are all of these addresses, at this time. */
  ghost predicate Adds(ops: seq<Op>, run: seq<Op>, ips: seq<Ip>, now: nat) {
    forall e :: e in FailuresOf(run) ==> e in FailuresOf(ops) || (e.ip in ips && e.at == now)
  }

  lemma {:induction false} TrimShrinks(q: seq<FailureEvent>, now: nat)
    ensures |TrimRecent(q, now)| <= |q|
  {
    if q != [] && Expired(q[0], now) {
      TrimShrinks(q[1..], now);
    }
  }

  /** One more attempt: a check that lets the address in, then its failure. */
  function Attempt(ops: seq<Op>, ip: Ip, now: nat): seq<Op> {
    ops + [CheckOp(ip, now)] + [FailureOp(ip, now)]
  }

  lemma CheckPasses(ops: seq<Op>, ip: Ip, now: nat, n: nat)
    requires Open(ops, now, n) && Free(ops, ip, now)
    ensures GoesOn(Admit(Replay(ops), ip, now))
    ensures Open(ops + [CheckOp(ip, now)], now, n)
    ensures FailuresOf(ops + [CheckOp(ip, now)]) == FailuresOf(ops)
  {
    Snoc(ops, CheckOp(ip, now));
    RecordIsClosedForm(ops, ip);
    assert FailuresOf(ops) + [] == FailuresOf(ops);
  }

  lemma AttemptIsGated(ops: seq<Op>, ip: Ip, now: nat, n: nat)
    requires Open(ops, now, n) && Free(ops, ip, now)
    ensures Gated(Attempt(ops, ip, now)) && Nondecreasing(Attempt(ops, ip, now))
    ensures Clock(Attempt(ops, ip, now)) == now
    ensures FailuresOf(Attempt(ops, ip, now)) == FailuresOf(ops) + [FailureEvent(ip, now)]
    ensures forall i :: 0 <= i < |Attempt(ops, ip, now)| ==> !Attempt(ops, ip, now)[i].SuccessOp?
  {
    var checked := ops + [CheckOp(ip, now)];
    CheckPasses(ops, ip, now, n);
    Snoc(ops, CheckOp(ip, now));
    Snoc(checked, FailureOp(ip, now));
  }

  lemma AttemptStreaks(ops: seq<Op>, ip: Ip, now: nat, who: Ip)
    ensures Streak(Attempt(ops, ip, now), who) == Streak(ops, who) + (if who == ip then [now] else [])
  {
    var checked := ops + [CheckOp(ip, now)];
    Snoc(ops, CheckOp(ip, now));
    Snoc(checked, FailureOp(ip, now));
  }

  lemma AttemptFails(ops: seq<Op>, ip: Ip, now: nat, n: nat)
    requires Open(ops, now, n) && Free(ops, ip, now) && n < 100
    ensures Open(Attempt(ops, ip, now), now, n + 1)
  {
    var checked := ops + [CheckOp(ip, now)];
    AttemptIsGated(ops, ip, now, n);
    CheckPasses(ops, ip, now, n);
    Snoc(checked, FailureOp(ip, now));
    QueueIsTrimmedHistory(checked);
    TrimShrinks(FailuresOf(checked), Clock(checked));
    TrimShrinks(Replay(checked).recent, now);
  }

  /** Attempts one after another at one moment, up to the fifth. */
  lemma {:induction false} Burst(ops: seq<Op>, ip: Ip, now: nat, n: nat, k: nat) returns (run: seq<Op>)
    requires Open(ops, now, n) && Free(ops, ip, now)
    requires |Streak(ops, ip)| % 5 == 0 && k <= 5 && n + k <= 100
    ensures Open(run, now, n + k) && Adds(ops, run, [ip], now)
    ensures forall who :: Streak(run, who) == Streak(ops, who) + (if who == ip then seq(k, _ => now) else [])
  {
    run := ops;
    if k > 0 {
      var before := Burst(ops, ip, now, n, k - 1);
      assert Streak(before, ip) == Streak(ops, ip) + seq(k - 1, _ => now);
      StillFree(Streak(ops, ip), now, k - 1);
      AttemptFails(before, ip, now, n + k - 1);
      AttemptIsGated(before, ip, now, n + k - 1);
      run := Attempt(before, ip, now);
      forall who ensures Streak(run, who) == Streak(ops, who) + (if who == ip then seq(k, _ => now) else []) {
        AttemptStreaks(before, ip, now, who);
        assert seq(k, _ => now) == seq(k - 1, _ => now) + [now];
      }
    }
  }

  lemma StillFree(streak: seq<nat>, now: nat, k: nat)
    requires |streak| % 5 == 0 && k < 5
    ensures CooldownOf(streak + seq(k, _ => now)) == CooldownOf(streak)
  {
    var grown := streak + seq(k, _ => now);
    assert |grown| % 5 == k;
    if streak != [] {
      assert |grown| - k - 1 == |streak| - 1;
    }
  }

  function Five(at: nat): (times: seq<nat>)
    ensures |times| == 5 && forall i :: 0 <= i < 5 ==> times[i] == at
  {
    seq(5, _ => at)
  }

  ghost predicate Distinct(ips: seq<Ip>) {
    forall i, j :: 0 <= i < j < |ips| ==> ips[i] != ips[j]
  }

  /** Each of the addresses in turn uses up five attempts. */
  lemma {:induction false} Round(ops: seq<Op>, ips: seq<Ip>, now: nat, n: nat) returns (run: seq<Op>)
    requires Open(ops, now, n) && Distinct(ips) && n + 5 * |ips| <= 100
    requires forall ip :: ip in ips ==> |Streak(ops, ip)| % 5 == 0 && Free(ops, ip, now)
    ensures Open(run, now, n + 5 * |ips|) && Adds(ops, run, ips, now)
    ensures forall who :: Streak(run, who) == Streak(ops, who) + (if who in ips then Five(now) else [])
  {
    if ips == [] {
      run := ops;
    } else {
      var rest, ip := Front(ips), Last(ips);
      assert ips == rest + [ip];
      assert ip !in rest;
      var before := Round(ops, rest, now, n);
      assert Streak(before, ip) == Streak(ops, ip) + [] == Streak(ops, ip);
      run := Burst(before, ip, now, n + 5 * |rest|, 5);
      forall who ensures Streak(run, who) == Streak(ops, who) + (if who in ips then Five(now) else []) {
        assert who in ips <==> who in rest || who == ip;
        assert Streak(run, who) == Streak(before, who) + (if who == ip then Five(now) else []);
      }
    }
  }

  /** After a round every one of its addresses is free again one cooldown later. */
  lemma FreeAgain(ops: seq<Op>, ip: Ip, streak: seq<nat>, at: nat)
    requires |streak| % 5 == 0 && Streak(ops, ip) == streak + Five(at)
    ensures |Streak(ops, ip)| % 5 == 0 && Free(ops, ip, at + COOLDOWN_SECS)
  {
  }

  // ---- one address ---------------------------------------------------------

  lemma {:induction false} CountAppend(a: seq<nat>, b: seq<nat>, lo: int, hi: int)
    ensures CountIn(a + b, lo, hi) == CountIn(a, lo, hi) + CountIn(b, lo, hi)
  {
    if b == [] {
      assert a + b == a;
    } else {
      assert Front(a + b) == a + Front(b) && Last(a + b) == Last(b);
      CountAppend(a, Front(b), lo, hi);
    }
  }

  lemma {:induction false} CountSame(times: seq<nat>, at: nat, lo: int, hi: int)
    requires forall i :: 0 <= i < |times| ==> times[i] == at
    ensures CountIn(times, lo, hi) == if lo <= at <= hi then |times| else 0
  {
    if times == [] {
    } else {
      CountSame(Front(times), at, lo, hi);
    }
  }

  /** Two full rounds, half a day apart, and all addresses free for a third. */
  lemma TwoRounds(ips: seq<Ip>, from: nat) returns (run: seq<Op>)
    requires Distinct(ips) && |ips| <= 10
    ensures Open(run, from + 2 * COOLDOWN_SECS, 10 * |ips|)
    ensures forall ip :: ip in ips ==>
              && Streak(run, ip) == Five(from) + Five(from + COOLDOWN_SECS)
              && Free(run, ip, from + 2 * COOLDOWN_SECS)
    ensures forall e :: e in FailuresOf(run) ==> e.ip in ips && from <= e.at
  {
    var first := Round([], ips, from, 0);
    assert forall ip :: Streak([], ip) == [];
    forall ip | ip in ips
      ensures Streak(first, ip) == Five(from) && |Streak(first, ip)| % 5 == 0 && Free(first, ip, from + COOLDOWN_SECS)
    {
      assert [] + Five(from) == Five(from);
      FreeAgain(first, ip, [], from);
    }
    run := Round(first, ips, from + COOLDOWN_SECS, 5 * |ips|);
    forall ip | ip in ips
      ensures Streak(run, ip) == Five(from) + Five(from + COOLDOWN_SECS) && Free(run, ip, from + 2 * COOLDOWN_SECS)
    {
      FreeAgain(run, ip, Five(from), from + COOLDOWN_SECS);
    }
  }

  lemma CountThree(ip: Ip, run: seq<Op>, from: nat, hi: int)
    requires NeverSucceeds(run, ip)
    requires Streak(run, ip) == Five(from) + Five(from + COOLDOWN_SECS) + Five(from + 2 * COOLDOWN_SECS)
    requires from <= hi
    ensures FailuresWithin(run, ip, from, hi) ==
            5 + (if from + COOLDOWN_SECS <= hi then 5 else 0) + (if from + 2 * COOLDOWN_SECS <= hi then 5 else 0)
  {
    StreakCounts(run, ip, from, hi);
    CountAppend(Five(from) + Five(from + COOLDOWN_SECS), Five(from + 2 * COOLDOWN_SECS), from, hi);
    CountAppend(Five(from), Five(from + COOLDOWN_SECS), from, hi);
    CountSame(Five(from), from, from, hi);
    CountSame(Five(from + COOLDOWN_SECS), from + COOLDOWN_SECS, from, hi);
    CountSame(Five(from + 2 * COOLDOWN_SECS), from + 2 * COOLDOWN_SECS, from, hi);
  }

  /**
    Some gated run without successes makes both bounds equalities: five
    failures within a cooldown, fifteen within 24 hours.
   */
  lemma BoundsAreAttained(ip: Ip, from: nat)
    ensures exists run: seq<Op> ::
              && Gated(run) && Nondecreasing(run) && NeverSucceeds(run, ip)
              && FailuresWithin(run, ip, from, from + COOLDOWN_SECS - 1) == 5
              && FailuresWithin(run, ip, from, from + GLOBAL_LOCKDOWN_WINDOW_SECS) == 15
  {
    var run := TwoRounds([ip], from);
    run := Round(run, [ip], from + 2 * COOLDOWN_SECS, 10);
    CountThree(ip, run, from, from + COOLDOWN_SECS - 1);
    CountThree(ip, run, from, from + GLOBAL_LOCKDOWN_WINDOW_SECS);
  }

  // ---- seven addresses -----------------------------------------------------

  lemma {:induction false} NoneExpired(run: seq<Op>, now: nat)
    requires Nondecreasing(run)
    requires forall e :: e in FailuresOf(run) ==> !Expired(e, now)
    ensures Window(FailuresOf(run), now) == FailuresOf(run)
  {
    FailuresInOrder(run);
    TrimIsWindow(FailuresOf(run), now);
  }

  lemma {:induction false} FewElements(ips: seq<Ip>)
    ensures |Elements(ips)| <= |ips|
  {
    if ips != [] {
      FewElements(ips[1..]);
      assert ips == [ips[0]] + ips[1..];
      ConsElements(ips[0], ips[1..]);
    } else {
      assert Elements(ips) == {};
    }
  }

  lemma Smaller(a: set<Ip>, b: set<Ip>)
    requires a <= b
    ensures |a| <= |b|
  {
    if a != b {
      assert b == a + (b - a);
    }
  }

  /** A hundred failures of seven addresses, none of them more than 24 hours old, and one address still free. */
  lemma HundredFailures(ips: seq<Ip>, from: nat) returns (run: seq<Op>)
    requires Distinct(ips) && |ips| == 7
    ensures Open(run, from + 2 * COOLDOWN_SECS, 100) && Free(run, ips[6], from + 2 * COOLDOWN_SECS)
    ensures forall e :: e in FailuresOf(run) ==> e.ip in ips && from <= e.at
  {
    var now := from + 2 * COOLDOWN_SECS;
    var two := TwoRounds(ips, from);
    var six := ips[..6];
    assert forall ip :: ip in six ==> ip in ips;
    run := Round(two, six, now, 70);
    assert ips[6] in ips && ips[6] !in six;
    assert Streak(two, ips[6]) + [] == Streak(two, ips[6]);
  }

  /**
    Seven addresses are enough: some gated run without successes ends in a
    lockdown whose record lists just seven, so that bound is sharp as well.
   */
  lemma {:induction false} SevenOffendersSuffice(ips: seq<Ip>, from: nat)
    requires Distinct(ips) && |ips| == 7
    ensures exists ops: seq<Op>, ip: Ip, now: nat ::
              && Nondecreasing(ops + [FailureOp(ip, now)]) && Gated(ops + [FailureOp(ip, now)])
              && (forall who :: NeverSucceeds(ops + [FailureOp(ip, now)], who))
              && FailDecision(Replay(ops), ip, now).lockedDown
              && Replay(ops + [FailureOp(ip, now)]).lockdown.Some?
              && |Replay(ops + [FailureOp(ip, now)]).lockdown.value.offenderIps| == 7
  {
    var now, ip := from + 2 * COOLDOWN_SECS, ips[6];
    var before := HundredFailures(ips, from);
    var ops := before + [CheckOp(ip, now)];
    var run := ops + [FailureOp(ip, now)];
    AttemptIsGated(before, ip, now, 100);
    assert run == Attempt(before, ip, now);
    forall e | e in FailuresOf(run) ensures e.ip in ips && !Expired(e, now) {
      assert e in FailuresOf(before) || e == FailureEvent(ip, now);
    }
    NoneExpired(run, now);
    LockdownFollowsHistory(ops, ip, now);
    LockdownNamesSevenOffenders(ops, ip, now);
    var offenders := Replay(run).lockdown.value.offenderIps;
    AscendingSize(offenders);
    FewElements(ips);
    Smaller(Elements(offenders), Elements(ips));
  }
}
