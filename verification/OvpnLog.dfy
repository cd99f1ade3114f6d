/** The verdict on a running OpenVPN process, read from its growing logs. */
module OvpnLog {
  import opened Sequences
  import opened Text
  import opened Wrappers

  datatype Verdict = Connecting | Up | AuthFailed | Fatal(detail: string) | Exited

  const UP_MARK := "initialization sequence completed"

  const AUTH_MARKS: seq<string> := ["auth_failed", "auth failed", "received control message: auth_failed"]

  const FATAL_MARKS: seq<string> := [
    "there are no tap-windows adapters",
    "cannot open tun/tap",
    "all tap-windows adapters",
    "failed to open tun",
    "createfile failed on",
    "exiting due to fatal error",
    "options error:",
    "bad backslash",
    "error: windows route add",
    "route: waiting for tun/tap",
    "use --help for more information"]

  const EXIT_MARKS: seq<string> := ["process exiting", "sigterm"]

  predicate Mentions(log: string, mark: string) {
    Contains(Lower(log), mark)
  }

  predicate MentionsAny(log: string, marks: seq<string>) {
    exists i :: 0 <= i < |marks| && Mentions(log, marks[i])
  }

  /** The last line that mentions the mark. */
  function DetailLine(lines: seq<string>, mark: string): string {
    if lines == [] then mark
    else if Mentions(Last(lines), mark) then Last(lines)
    else DetailLine(Front(lines), mark)
  }

  /** The first mark of the list, from the index on, that the log mentions. */
  function FirstMark(log: string, marks: seq<string>, from: nat): Option<nat>
    requires from <= |marks|
    decreases |marks| - from
  {
    if from == |marks| then None
    else if Mentions(log, marks[from]) then Some(from)
    else FirstMark(log, marks, from + 1)
  }

  function Inspect(log: string): Verdict {
    if Mentions(log, UP_MARK) then Up
    else if MentionsAny(log, AUTH_MARKS) then AuthFailed
    else
      var first := FirstMark(log, FATAL_MARKS, 0);
      if first.Some? && first.value < |FATAL_MARKS| then Fatal(DetailLine(Lines(log), FATAL_MARKS[first.value]))
      else if MentionsAny(log, EXIT_MARKS) then Exited
      else Connecting
  }

  // ---- merging two logs ----------------------------------------------------

  function Merge(main: string, err: string): string {
    if err == "" then main
    else if main == "" then err
    else main + "\n" + err
  }

  ghost predicate PlainMark(mark: string) {
    mark != "" && forall i :: 0 <= i < |mark| ==> mark[i] != '\n' && mark[i] != '\r'
  }

  ghost predicate PlainMarks(marks: seq<string>) {
    forall i :: 0 <= i < |marks| ==> PlainMark(marks[i])
  }

  lemma UpMarkIsPlain()
    ensures PlainMark(UP_MARK)
  {
  }

  lemma AuthMarksArePlain()
    ensures PlainMarks(AUTH_MARKS)
  {
    ShortAuthMarks();
    LongAuthMark();
  }

  lemma ShortAuthMarks()
    ensures PlainMark("auth_failed") && PlainMark("auth failed")
  {
  }

  lemma LongAuthMark()
    ensures PlainMark("received control message: auth_failed")
  {
  }

  lemma ExitMarksArePlain()
    ensures PlainMarks(EXIT_MARKS)
  {
  }

  lemma {:induction false} FatalMarksArePlain()
    ensures PlainMarks(FATAL_MARKS)
  {
    FirstFatalMarks();
    MiddleFatalMarks();
    LastFatalMarks();
  }

  lemma FirstFatalMarks()
    ensures PlainMark("there are no tap-windows adapters") && PlainMark("cannot open tun/tap")
    ensures PlainMark("all tap-windows adapters") && PlainMark("failed to open tun")
  {
  }

  lemma MiddleFatalMarks()
    ensures PlainMark("createfile failed on") && PlainMark("exiting due to fatal error")
    ensures PlainMark("options error:") && PlainMark("bad backslash")
  {
  }

  lemma LastFatalMarks()
    ensures PlainMark("error: windows route add") && PlainMark("route: waiting for tun/tap")
    ensures PlainMark("use --help for more information")
  {
  }

  /** No mark is made up by joining the logs, and none is lost. */
  lemma MergeMentions(main: string, err: string, mark: string)
    requires PlainMark(mark)
    ensures Mentions(Merge(main, err), mark) <==> Mentions(main, mark) || Mentions(err, mark)
  {
    assert !Contains(Lower(""), mark);
    if main != "" && err != "" {
      LowerAppend(main + "\n", err);
      LowerAppend(main, "\n");
      assert Lower("\n") == "\n";
      ContainsAcross(Lower(main), '\n', Lower(err), mark);
    }
  }

  lemma GrownMentions(log: string, grown: string, mark: string)
    requires log <= grown && Mentions(log, mark)
    ensures Mentions(grown, mark)
  {
    var more := grown[|log|..];
    assert grown == log + more;
    LowerAppend(log, more);
    ContainsLeft(Lower(log), Lower(more), mark);
  }

  lemma MergeGrows(main: string, err: string, main2: string, err2: string, mark: string)
    requires main <= main2 && err <= err2 && PlainMark(mark)
    ensures Mentions(Merge(main, err), mark) ==> Mentions(Merge(main2, err2), mark)
  {
    MergeMentions(main, err, mark);
    MergeMentions(main2, err2, mark);
    if Mentions(main, mark) { GrownMentions(main, main2, mark); }
    if Mentions(err, mark) { GrownMentions(err, err2, mark); }
  }

  // ---- verdicts only rise --------------------------------------------------

  function Rank(v: Verdict): nat {
    match v
    case Connecting => 0
    case Exited => 1
    case Fatal(_) => 2
    case AuthFailed => 3
    case Up => 4
  }

  lemma {:induction false} FirstMarkFinds(log: string, marks: seq<string>, from: nat)
    requires from <= |marks|
    ensures
      var first := FirstMark(log, marks, from);
      && (first.Some? ==> from <= first.value < |marks| && Mentions(log, marks[first.value])
                          && forall i :: from <= i < first.value ==> !Mentions(log, marks[i]))
      && (first.None? ==> forall i :: from <= i < |marks| ==> !Mentions(log, marks[i]))
    decreases |marks| - from
  {
    if from < |marks| && !Mentions(log, marks[from]) {
      FirstMarkFinds(log, marks, from + 1);
    }
  }

  /** The rank is decided by which groups of marks the log mentions. */
  lemma RankByMarks(log: string)
    ensures Rank(Inspect(log)) ==
            if Mentions(log, UP_MARK) then 4
            else if MentionsAny(log, AUTH_MARKS) then 3
            else if MentionsAny(log, FATAL_MARKS) then 2
            else if MentionsAny(log, EXIT_MARKS) then 1
            else 0
  {
    FirstMarkFinds(log, FATAL_MARKS, 0);
  }

  lemma AnyGrows(main: string, err: string, main2: string, err2: string, marks: seq<string>)
    requires main <= main2 && err <= err2
    requires PlainMarks(marks)
    ensures MentionsAny(Merge(main, err), marks) ==> MentionsAny(Merge(main2, err2), marks)
  {
    if MentionsAny(Merge(main, err), marks) {
      var i :| 0 <= i < |marks| && Mentions(Merge(main, err), marks[i]);
      MergeGrows(main, err, main2, err2, marks[i]);
    }
  }

  /** As either log grows by appending, the verdict on their merge never drops. */
  lemma VerdictNeverDrops(main: string, err: string, main2: string, err2: string)
    requires main <= main2 && err <= err2
    ensures Rank(Inspect(Merge(main, err))) <= Rank(Inspect(Merge(main2, err2)))
  {
    UpMarkIsPlain();
    AuthMarksArePlain();
    FatalMarksArePlain();
    ExitMarksArePlain();
    RankByMarks(Merge(main, err));
    RankByMarks(Merge(main2, err2));
    MergeGrows(main, err, main2, err2, UP_MARK);
    AnyGrows(main, err, main2, err2, AUTH_MARKS);
    AnyGrows(main, err, main2, err2, FATAL_MARKS);
    AnyGrows(main, err, main2, err2, EXIT_MARKS);
  }

  lemma {:induction false} DetailLineFinds(lines: seq<string>, mark: string)
    requires AnyLineContains(lines, mark)
    ensures DetailLine(lines, mark) in lines && Mentions(DetailLine(lines, mark), mark)
  {
    var i :| 0 <= i < |lines| && Contains(Lower(lines[i]), mark);
    if !Mentions(Last(lines), mark) {
      assert Contains(Lower(Front(lines)[i]), mark);
      DetailLineFinds(Front(lines), mark);
    }
  }

  /** A fatal verdict quotes a real line of the log, one with the first mark found. */
  lemma FatalQuotesTheLog(log: string)
    requires Inspect(log).Fatal?
    ensures Inspect(log).detail in Lines(log)
    ensures exists i :: 0 <= i < |FATAL_MARKS| && Mentions(Inspect(log).detail, FATAL_MARKS[i])
                        && Inspect(log).detail == DetailLine(Lines(log), FATAL_MARKS[i])
                        && forall j :: 0 <= j < i ==> !Mentions(log, FATAL_MARKS[j])
  {
    FirstMarkFinds(log, FATAL_MARKS, 0);
    FatalMarksArePlain();
    var i := FirstMark(log, FATAL_MARKS, 0).value;
    LinesContain(log, FATAL_MARKS[i]);
    DetailLineFinds(Lines(log), FATAL_MARKS[i]);
  }

  // ---- the loops -----------------------------------------------------------

  method FindDetail(log: string, mark: string) returns (detail: string)
    ensures detail == DetailLine(Lines(log), mark)
  {
    var lines := Lines(log);
    var i := |lines|;
    assert lines[..i] == lines;
    while i > 0
      invariant 0 <= i <= |lines|
      invariant DetailLine(lines[..i], mark) == DetailLine(lines, mark)
    {
      TakeNext(lines, i - 1);
      i := i - 1;
      if Contains(Lower(lines[i]), mark) {
        return lines[i];
      }
    }
    detail := mark;
  }

  method InspectOpenvpnLog(log: string) returns (verdict: Verdict)
    ensures verdict == Inspect(log)
  {
    if Mentions(log, UP_MARK) {
      return Up;
    }
    if MentionsAny(log, AUTH_MARKS) {
      return AuthFailed;
    }
    for i := 0 to |FATAL_MARKS|
      invariant FirstMark(log, FATAL_MARKS, 0) == FirstMark(log, FATAL_MARKS, i)
    {
      if Mentions(log, FATAL_MARKS[i]) {
        var detail := FindDetail(log, FATAL_MARKS[i]);
        return Fatal(detail);
      }
    }
    if MentionsAny(log, EXIT_MARKS) {
      return Exited;
    }
    return Connecting;
  }

  /** One look at the two files, the process and the clock. */
  datatype Look = Look(main: string, err: string, gone: bool, late: bool)

  datatype Wait = Settled(verdict: Verdict) | NoLog | TimedOut | Waiting

  ghost predicate Growing(looks: seq<Look>) {
    forall i, j :: 0 <= i <= j < |looks| ==> looks[i].main <= looks[j].main && looks[i].err <= looks[j].err
  }

  /** What a look's logs say. */
  function Seen(look: Look): Verdict {
    Inspect(Merge(look.main, look.err))
  }

  predicate Undecided(look: Look) {
    Seen(look).Connecting? && !look.gone && !look.late
  }

  /** How a look that decides something ends the wait. */
  function Decide(look: Look, anyLog: bool): Wait {
    var verdict := Seen(look);
    if !verdict.Connecting? then Settled(verdict)
    else if look.gone then (if anyLog then Settled(Exited) else NoLog)
    else TimedOut
  }

  lemma NothingInEmptyLog(marks: seq<string>)
    requires PlainMarks(marks)
    ensures !MentionsAny("", marks)
  {
    assert forall i :: 0 <= i < |marks| ==> !Contains("", marks[i]);
  }

  lemma EmptyLogConnects()
    ensures Inspect("").Connecting?
  {
    UpMarkIsPlain();
    AuthMarksArePlain();
    FatalMarksArePlain();
    ExitMarksArePlain();
    NothingInEmptyLog([UP_MARK]);
    assert [UP_MARK][0] == UP_MARK;
    NothingInEmptyLog(AUTH_MARKS);
    NothingInEmptyLog(FATAL_MARKS);
    NothingInEmptyLog(EXIT_MARKS);
    RankByMarks("");
  }

  /** Something was logged by the first looks. */
  ghost predicate AnyLog(looks: seq<Look>, n: nat)
    requires n <= |looks|
  {
    exists i :: 0 <= i < n && Merge(looks[i].main, looks[i].err) != ""
  }

  lemma {:induction false} AnyLogNext(looks: seq<Look>, n: nat)
    requires n < |looks|
    ensures AnyLog(looks, n + 1) <==> AnyLog(looks, n) || Merge(looks[n].main, looks[n].err) != ""
  {
  }

  method Judge(look: Look) returns (combined: string, verdict: Verdict)
    ensures combined == Merge(look.main, look.err)
    ensures verdict == Inspect(combined)
  {
    combined := Merge(look.main, look.err);
    verdict := Connecting;
    if combined != "" {
      verdict := InspectOpenvpnLog(combined);
    } else {
      EmptyLogConnects();
    }
  }

  lemma {:induction false} VerdictsRise(looks: seq<Look>, k: nat, j: nat)
    requires Growing(looks) && k <= j < |looks|
    ensures Rank(Seen(looks[k])) <= Rank(Seen(looks[j]))
  {
    VerdictNeverDrops(looks[k].main, looks[k].err, looks[j].main, looks[j].err);
  }

  /**
    On logs that only grow a verdict that settles the wait is never taken back
    by a later look, except exactly when it was inferred from the process being
    gone and the later look's logs still say nothing.
   */
  lemma {:induction false} SettledStandsIff(looks: seq<Look>, k: nat, j: nat, anyLog: bool)
    requires Growing(looks) && k <= j < |looks| && Decide(looks[k], anyLog).Settled?
    ensures Rank(Decide(looks[k], anyLog).verdict) > Rank(Seen(looks[j]))
       <==> Seen(looks[k]).Connecting? && Seen(looks[j]).Connecting?
  {
    VerdictsRise(looks, k, j);
  }

  lemma NoLongMark(log: string, marks: seq<string>)
    requires |log| <= 1 && forall i :: 0 <= i < |marks| ==> |marks[i]| > 1
    ensures !MentionsAny(log, marks)
  {
  }

  /** Such a verdict: the process is gone, and what it logged means nothing. */
  lemma {:induction false} GoneIsTakenBack(look: Look)
    requires look == Look("x", "", true, false)
    ensures Decide(look, true) == Settled(Exited) && Rank(Exited) > Rank(Seen(look))
  {
    NoLongMark("x", [UP_MARK]);
    assert [UP_MARK][0] == UP_MARK;
    NoLongMark("x", AUTH_MARKS);
    NoLongMark("x", FATAL_MARKS);
    NoLongMark("x", EXIT_MARKS);
    RankByMarks("x");
  }

  /** One more look: does it decide, and if so what. */
  method TakeLook(look: Look, before: bool) returns (anyLog: bool, decided: bool, result: Wait)
    ensures anyLog == (before || Merge(look.main, look.err) != "")
    ensures decided == !Undecided(look)
    ensures result == if decided then Decide(look, anyLog) else Waiting
  {
    var combined, verdict := Judge(look);
    anyLog, decided, result := before || combined != "", true, Waiting;
    if !verdict.Connecting? {
      result := Settled(verdict);
    } else if look.gone {
      result := if anyLog then Settled(Exited) else NoLog;
    } else if look.late {
      result := TimedOut;
    } else {
      decided := false;
    }
  }

  /**
    A log's verdict is returned as it is; else the process being gone reads as
    an exit, or as an error when nothing was ever logged; else time is up.
   */
  ghost predicate EndsWith(look: Look, anyLog: bool, result: Wait) {
    && (!Seen(look).Connecting? ==> result == Settled(Seen(look)))
    && (Seen(look).Connecting? && look.gone && anyLog ==> result == Settled(Exited))
    && (result == NoLog <==> Seen(look).Connecting? && look.gone && !anyLog)
    && (result == TimedOut <==> Seen(look).Connecting? && !look.gone)
    && (result == TimedOut ==> look.late)
  }

  lemma DecisionEnds(look: Look, anyLog: bool)
    requires !Undecided(look)
    ensures EndsWith(look, anyLog, Decide(look, anyLog))
    ensures forall result: Wait :: EndsWith(look, anyLog, result) ==> result == Decide(look, anyLog)
  {
  }

  /** The wait took so many looks, and the last of them was the first to decide, if any did. */
  ghost predicate EndsAt(looks: seq<Look>, used: nat, result: Wait) {
    && used <= |looks|
    && (result.Waiting? ==> used == |looks| && forall i :: 0 <= i < |looks| ==> Undecided(looks[i]))
    && (!result.Waiting? ==>
          && used > 0 && !Undecided(looks[used - 1])
          && (forall i :: 0 <= i < used - 1 ==> Undecided(looks[i]))
          && EndsWith(looks[used - 1], AnyLog(looks, used), result))
  }

  lemma {:induction false} FirstDecision(looks: seq<Look>, k: nat, anyLog: bool)
    requires k < |looks| && !Undecided(looks[k])
    requires forall i :: 0 <= i < k ==> Undecided(looks[i])
    requires anyLog == AnyLog(looks, k + 1)
    ensures EndsAt(looks, k + 1, Decide(looks[k], anyLog))
  {
    DecisionEnds(looks[k], anyLog);
  }

  /** Waits for the first look that decides. */
  method WaitForUp(looks: seq<Look>) returns (result: Wait, used: nat)
    ensures EndsAt(looks, used, result)
  {
    var anyLog, decided := false, false;
    used, result := 0, Waiting;
    while used < |looks|
      invariant used <= |looks| && result.Waiting?
      invariant forall i :: 0 <= i < used ==> Undecided(looks[i])
      invariant anyLog <==> AnyLog(looks, used)
    {
      AnyLogNext(looks, used);
      anyLog, decided, result := TakeLook(looks[used], anyLog);
      if decided {
        FirstDecision(looks, used, anyLog);
        used := used + 1;
        return;
      }
      used := used + 1;
    }
  }

  /**
    On logs that only grow, what settled the wait is never taken back by a
    later look, unless it was inferred from the process being gone.
   */
  lemma {:induction false} WaitVerdictStands(looks: seq<Look>, used: nat, result: Wait, j: nat)
    requires Growing(looks) && EndsAt(looks, used, result) && result.Settled?
    requires used - 1 <= j < |looks|
    ensures Rank(result.verdict) <= Rank(Seen(looks[j])) || (looks[used - 1].gone && result.verdict.Exited?)
  {
    DecisionEnds(looks[used - 1], AnyLog(looks, used));
    SettledStandsIff(looks, used - 1, j, AnyLog(looks, used));
  }
}
