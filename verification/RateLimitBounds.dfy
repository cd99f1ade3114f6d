/**
  Quantitative bounds over whole runs of a server that consults the journal
  before it registers a failure.
 */
module RateLimitBounds {
  import opened Sequences
  import opened StringOrder
  import opened RateLimit
  import opened RateLimitHistory

  /** How many of the times lie in the closed interval. */
  function CountIn(times: seq<nat>, lo: int, hi: int): nat {
    if times == [] then 0
    else CountIn(Front(times), lo, hi) + (if lo <= Last(times) <= hi then 1 else 0)
  }

  /** How many failures of the address the run registers in the closed interval. */
  function FailuresWithin(ops: seq<Op>, ip: Ip, lo: int, hi: int): nat {
    if ops == [] then 0
    else FailuresWithin(Front(ops), ip, lo, hi) +
         (if Last(ops).FailureOp? && Last(ops).ip == ip && lo <= Last(ops).at <= hi then 1 else 0)
  }

  ghost predicate NeverSucceeds(ops: seq<Op>, ip: Ip) {
    forall i :: 0 <= i < |ops| ==> ops[i] != SuccessOp(ip)
  }

  // ---- spacing of one address's failures -----------------------------------

  ghost predicate NatsInOrder(times: seq<nat>) {
    forall i, j :: 0 <= i < j < |times| ==> times[i] <= times[j]
  }

  /** After every fifth failure the next one waits for the cooldown to end. */
  ghost predicate Spaced(times: seq<nat>) {
    forall n :: 5 <= n < |times| ==> times[n] >= times[n - n % 5 - 1] + COOLDOWN_SECS
  }

  lemma SpacedSnoc(times: seq<nat>, at: nat)
    requires NatsInOrder(times) && Spaced(times)
    requires forall t :: t in times ==> t <= at
    requires CooldownOf(times).Some? ==> CooldownOf(times).value <= at
    ensures NatsInOrder(times + [at]) && Spaced(times + [at])
  {
    var grown := times + [at];
    forall i, j | 0 <= i < j < |grown| ensures grown[i] <= grown[j] {
      assert grown[i] in times;
    }
    forall n | 5 <= n < |grown| ensures grown[n] >= grown[n - n % 5 - 1] + COOLDOWN_SECS {
      assert n < |times| ==> times[n] >= times[n - n % 5 - 1] + COOLDOWN_SECS;
    }
  }

  lemma {:induction false} StreakIsSpaced(ops: seq<Op>, ip: Ip)
    requires Nondecreasing(ops) && Gated(ops)
    ensures NatsInOrder(Streak(ops, ip)) && Spaced(Streak(ops, ip))
    ensures forall t :: t in Streak(ops, ip) ==> t <= Clock(ops)
  {
    if ops == [] {
    } else {
      var before, op := Front(ops), Last(ops);
      StreakIsSpaced(before, ip);
      if op.FailureOp? && op.ip == ip {
        var streak := Streak(before, ip);
        var gate := Front(before);
        assert Streak(before, ip) == Streak(gate, ip);
        RecordIsClosedForm(gate, ip);
        assert GoesOn(Admit(Replay(gate), ip, op.at));
        SpacedSnoc(streak, op.at);
      }
    }
  }

  lemma {:induction false} SpacedFar(times: seq<nat>, i: nat, k: nat)
    requires NatsInOrder(times) && Spaced(times)
    requires i + 5 * k < |times|
    ensures times[i + 5 * k] >= times[i] + k * COOLDOWN_SECS
  {
    if k > 0 {
      SpacedFar(times, i, k - 1);
      var n := i + 5 * k;
      var fifth := n - n % 5 - 1;
      var near := i + 5 * (k - 1);
      assert near <= fifth < n;
      assert times[near] <= times[fifth];
      assert times[n] >= times[fifth] + COOLDOWN_SECS;
      assert k * COOLDOWN_SECS == (k - 1) * COOLDOWN_SECS + COOLDOWN_SECS;
    }
  }

  /** The counted times span at least as many positions. */
  lemma {:induction false} CountSpan(times: seq<nat>, lo: int, hi: int) returns (i: nat, j: nat)
    requires CountIn(times, lo, hi) > 0
    ensures i <= j < |times| && lo <= times[i] && times[j] <= hi
    ensures CountIn(times, lo, hi) <= j - i + 1
  {
    if CountIn(Front(times), lo, hi) > 0 {
      i, j := CountSpan(Front(times), lo, hi);
      if lo <= Last(times) <= hi {
        j := |times| - 1;
      }
    } else {
      i, j := |times| - 1, |times| - 1;
    }
  }

  /** At most five per cooldown of spaced failures, over any stretch of time. */
  lemma SpacedCount(times: seq<nat>, lo: int, hi: int, k: nat)
    requires NatsInOrder(times) && Spaced(times)
    requires hi - lo < k * COOLDOWN_SECS
    ensures CountIn(times, lo, hi) <= 5 * k
  {
    if CountIn(times, lo, hi) > 5 * k {
      var i, j := CountSpan(times, lo, hi);
      assert i + 5 * k <= j;
      SpacedFar(times, i, k);
    }
  }

  lemma {:induction false} StreakCounts(ops: seq<Op>, ip: Ip, lo: int, hi: int)
    requires NeverSucceeds(ops, ip)
    ensures FailuresWithin(ops, ip, lo, hi) == CountIn(Streak(ops, ip), lo, hi)
  {
    if ops == [] {
    } else {
      assert NeverSucceeds(Front(ops), ip);
      StreakCounts(Front(ops), ip, lo, hi);
      assert Last(ops) != SuccessOp(ip);
    }
  }

  /**
    In a gated run an address that never succeeds registers at most five
    failures in any half-open window of one cooldown, and at most fifteen in
    any closed window of 24 hours.
   */
  lemma PerAddressBounds(ops: seq<Op>, ip: Ip, from: int)
    requires Nondecreasing(ops) && Gated(ops) && NeverSucceeds(ops, ip)
    ensures FailuresWithin(ops, ip, from, from + COOLDOWN_SECS - 1) <= 5
    ensures FailuresWithin(ops, ip, from, from + GLOBAL_LOCKDOWN_WINDOW_SECS) <= 15
  {
    StreakIsSpaced(ops, ip);
    StreakCounts(ops, ip, from, from + COOLDOWN_SECS - 1);
    StreakCounts(ops, ip, from, from + GLOBAL_LOCKDOWN_WINDOW_SECS);
    SpacedCount(Streak(ops, ip), from, from + COOLDOWN_SECS - 1, 1);
    SpacedCount(Streak(ops, ip), from, from + GLOBAL_LOCKDOWN_WINDOW_SECS, 3);
  }

  // ---- lockdown needs many offenders ---------------------------------------

  function CountOf(q: seq<FailureEvent>, ip: Ip): nat {
    if q == [] then 0 else CountOf(Front(q), ip) + (if Last(q).ip == ip then 1 else 0)
  }

  function Without(q: seq<FailureEvent>, ip: Ip): seq<FailureEvent> {
    if q == [] then []
    else Without(Front(q), ip) + (if Last(q).ip == ip then [] else [Last(q)])
  }

  lemma {:induction false} WithoutSplits(q: seq<FailureEvent>, ip: Ip, other: Ip)
    ensures |q| == CountOf(q, ip) + |Without(q, ip)|
    ensures other != ip ==> CountOf(Without(q, ip), other) == CountOf(q, other)
    ensures forall e :: e in Without(q, ip) ==> e in q && e.ip != ip
  {
    if q == [] {
    } else {
      WithoutSplits(Front(q), ip, other);
      var init := Without(Front(q), ip);
      if Last(q).ip != ip {
        Snoc(init, Last(q));
      } else {
        assert init + [] == init;
      }
      forall e | e in Without(q, ip) ensures e in q && e.ip != ip {
        assert e in init || e == Last(q);
      }
    }
  }

  lemma {:induction false} Pigeonhole(q: seq<FailureEvent>, ips: set<Ip>, most: nat)
    requires forall e :: e in q ==> e.ip in ips
    requires forall ip :: ip in ips ==> CountOf(q, ip) <= most
    ensures |q| <= |ips| * most
    decreases |ips|
  {
    if q == [] {
    } else {
      var ip := q[0].ip;
      var rest, others := Without(q, ip), ips - {ip};
      WithoutSplits(q, ip, ip);
      forall other | other in others ensures CountOf(rest, other) <= most {
        WithoutSplits(q, ip, other);
      }
      Pigeonhole(rest, others, most);
      assert ips == others + {ip};
      Shares(|others|, most);
    }
  }

  lemma Shares(n: nat, most: nat)
    ensures (n + 1) * most == n * most + most
  {
  }

  lemma {:induction false} WindowCounts(ops: seq<Op>, ip: Ip, now: nat)
    requires forall e :: e in FailuresOf(ops) ==> e.at <= now
    ensures CountOf(Window(FailuresOf(ops), now), ip)
         == FailuresWithin(ops, ip, now - GLOBAL_LOCKDOWN_WINDOW_SECS, now)
  {
    if ops == [] {
    } else {
      var before, op := Front(ops), Last(ops);
      forall e | e in FailuresOf(before) ensures e.at <= now {
        assert e in FailuresOf(ops);
      }
      WindowCounts(before, ip, now);
      if op.FailureOp? {
        var e := FailureEvent(op.ip, op.at);
        Snoc(FailuresOf(before), e);
        assert e in FailuresOf(ops);
        var w := Window(FailuresOf(before), now);
        Snoc(w, e);
        assert w + [] == w;
      } else {
        assert FailuresOf(before) + [] == FailuresOf(before);
      }
    }
  }

  /**
    Whenever a gated run without successes locks the server down, the record
    lists at least seven different addresses.
   */
  lemma LockdownNamesSevenOffenders(ops: seq<Op>, ip: Ip, now: nat)
    requires Nondecreasing(ops + [FailureOp(ip, now)]) && Gated(ops + [FailureOp(ip, now)])
    requires forall who :: NeverSucceeds(ops + [FailureOp(ip, now)], who)
    requires FailDecision(Replay(ops), ip, now).lockedDown
    ensures
      var lockdown := Replay(ops + [FailureOp(ip, now)]).lockdown;
      && lockdown.Some?
      && Ascending(lockdown.value.offenderIps)
      && |lockdown.value.offenderIps| >= 7
  {
    var run := ops + [FailureOp(ip, now)];
    Snoc(ops, FailureOp(ip, now));
    LockdownFollowsHistory(ops, ip, now);
    FailuresInOrder(run);
    var window := Window(FailuresOf(run), now);
    var offenders := Replay(run).lockdown.value.offenderIps;
    var ips := set e | e in window :: e.ip;
    forall who | who in ips ensures CountOf(window, who) <= 15 {
      WindowCounts(run, who, now);
      PerAddressBounds(run, who, now - GLOBAL_LOCKDOWN_WINDOW_SECS);
    }
    Pigeonhole(window, ips, 15);
    AscendingSize(offenders);
  }

  // ---- what lockdown stops -------------------------------------------------

  /**
    From a lockdown until an unlock the server is silent: the lockdown stands
    whatever else happens, and no failure is registered.
   */
  lemma {:induction false} LockdownHolds(ops: seq<Op>, later: seq<Op>)
    requires Replay(ops).lockdown.Some?
    requires Gated(ops + later)
    requires forall i :: 0 <= i < |later| ==> later[i] != UnlockOp
    ensures Replay(ops + later).lockdown == Replay(ops).lockdown
    ensures forall i :: 0 <= i < |later| ==> !later[i].FailureOp?
  {
    if later == [] {
      assert ops + later == ops;
    } else {
      var init, op := Front(later), Last(later);
      assert Front(ops + later) == ops + init && Last(ops + later) == op;
      assert later == init + [op];
      LockdownHolds(ops, init);
      forall i | 0 <= i < |later| ensures !later[i].FailureOp? {
        assert later[i] == if i < |init| then init[i] else op;
      }
    }
  }
}
