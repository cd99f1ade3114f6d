/**
  Checks observe without disturbing: although each check trims the deque, a
  run from which checks are dropped answers every remaining operation alike.
 */
module RateLimitTransparency {
  import opened Sequences
  import opened RateLimit
  import opened RateLimitHistory

  /** The run with the operations whose mark is false left out. */
  function Thin(ops: seq<Op>, keep: seq<bool>): seq<Op>
    requires |ops| == |keep|
  {
    if ops == [] then []
    else Thin(Front(ops), Front(keep)) + (if Last(keep) then [Last(ops)] else [])
  }

  ghost predicate DropsOnlyChecks(ops: seq<Op>, keep: seq<bool>) {
    |ops| == |keep| && forall i :: 0 <= i < |ops| ==> keep[i] || ops[i].CheckOp?
  }

  /** Two journals no operation at or after the given time can tell apart. */
  ghost predicate AlikeFrom(a: Journal, b: Journal, now: nat) {
    && a.failures == b.failures
    && a.banned == b.banned
    && a.lockdown == b.lockdown
    && forall t: nat :: now <= t ==> TrimRecent(a.recent, t) == TrimRecent(b.recent, t)
  }

  lemma AlikeAnswers(a: Journal, b: Journal, now: nat, op: Op)
    requires AlikeFrom(a, b, now)
    requires op.Timed() ==> now <= op.at
    ensures AnswerTo(a, op) == AnswerTo(b, op)
    ensures AlikeFrom(Apply(a, op), Apply(b, op), if op.Timed() then op.at else now)
  {
  }

  lemma CheckIsInvisible(a: Journal, b: Journal, now: nat, op: Op)
    requires AlikeFrom(a, b, now)
    requires op.CheckOp? && now <= op.at
    ensures AlikeFrom(Apply(a, op), b, op.at)
  {
    forall t: nat | op.at <= t
      ensures TrimRecent(TrimRecent(a.recent, op.at), t) == TrimRecent(b.recent, t)
    {
      TrimAbsorbed(a.recent, op.at, t);
    }
  }

  lemma {:induction false} ThinnedRunsAlike(ops: seq<Op>, keep: seq<bool>)
    requires Nondecreasing(ops) && DropsOnlyChecks(ops, keep)
    ensures AlikeFrom(Replay(ops), Replay(Thin(ops, keep)), Clock(ops))
  {
    if ops == [] {
    } else {
      var op := Last(ops);
      ThinnedRunsAlike(Front(ops), Front(keep));
      var thin := Thin(Front(ops), Front(keep));
      var now := Clock(Front(ops));
      if Last(keep) {
        Snoc(thin, op);
        AlikeAnswers(Replay(Front(ops)), Replay(thin), now, op);
      } else {
        assert thin + [] == thin;
        assert ops[|ops| - 1].CheckOp?;
        CheckIsInvisible(Replay(Front(ops)), Replay(thin), now, op);
      }
    }
  }

  /**
    Deleting any checks from a run with nondecreasing times changes neither
    the final failures, bans and lockdown nor the answer to any kept operation.
   */
  lemma ChecksAreTransparent(ops: seq<Op>, keep: seq<bool>, i: nat)
    requires Nondecreasing(ops) && DropsOnlyChecks(ops, keep) && i < |ops|
    ensures Replay(ops).failures == Replay(Thin(ops, keep)).failures
    ensures Replay(ops).banned == Replay(Thin(ops, keep)).banned
    ensures Replay(ops).lockdown == Replay(Thin(ops, keep)).lockdown
    ensures AnswerTo(Replay(ops[..i]), ops[i]) == AnswerTo(Replay(Thin(ops[..i], keep[..i])), ops[i])
  {
    ThinnedRunsAlike(ops, keep);
    PrefixNondecreasing(ops, i + 1);
    assert Front(ops[..i + 1]) == ops[..i] && Last(ops[..i + 1]) == ops[i];
    ThinnedRunsAlike(ops[..i], keep[..i]);
    AlikeAnswers(Replay(ops[..i]), Replay(Thin(ops[..i], keep[..i])), Clock(ops[..i]), ops[i]);
  }

  lemma {:induction false} PrefixNondecreasing(ops: seq<Op>, n: nat)
    requires Nondecreasing(ops) && n <= |ops|
    ensures Nondecreasing(ops[..n])
  {
    if n < |ops| {
      PrefixNondecreasing(Front(ops), n);
      assert Front(ops)[..n] == ops[..n];
    } else {
      assert ops[..n] == ops;
    }
  }
}
