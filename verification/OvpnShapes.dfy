/**
  What rewriting does to the shape of a profile: every written line is met by
  the tag tracker, the credentials probe and the parser exactly like the line
  it stands for.
 */
module OvpnShapes {
  import opened Sequences
  import opened Text
  import opened Wrappers
  import opened OvpnProfile

  ghost predicate PlainWord(w: string) {
    w != "" && NoSpace(w) && Lower(w) == w && !IsTag(w) && !IsComment(w)
  }

  lemma WordLine(w: string, rest: string)
    requires PlainWord(w)
    ensures ShapeOf(w + " " + rest) == Directive(w)
  {
    DirectiveLine(w, rest);
  }

  ghost predicate Word(w: string) {
    w != "" && NoSpace(w)
  }

  lemma {:induction false} OneWord(w: string)
    requires Word(w)
    ensures Trim(w) == w && Words(w) == [w]
  {
    TrimTight(w);
    TakeWordStops(w, "");
    assert w + "" == w && w[|w|..] == "";
  }

  lemma TwoWords(a: string, b: string)
    requires Word(a) && Word(b)
    ensures Trim(a + " " + b) == a + " " + b
    ensures Words(a + " " + b) == [a, b]
  {
    var s, tail := a + " " + b, " " + b;
    assert s == a + tail;
    TrimTight(s);
    TakeWordStops(a, tail);
    assert s[|a|..] == tail && tail[1..] == b;
    OneWord(b);
    assert Words(tail) == Words(b);
  }

  lemma LoneWord(w: string)
    requires PlainWord(w)
    ensures ShapeOf(w) == Directive(w)
  {
    OneWord(w);
  }

  lemma DevWords()
    ensures PlainWord("dev") && PlainWord("tun")
  {
  }

  lemma {:induction false} DevLineShape()
    ensures ShapeOf(DEV_LINE) == Directive("dev")
    ensures Words(Trim(DEV_LINE)) == ["dev", "tun"]
  {
    DevWords();
    WordLine("dev", "tun");
    TwoWords("dev", "tun");
    assert DEV_LINE == "dev" + " " + "tun";
  }

  lemma RedirectWord()
    ensures PlainWord("redirect-gateway")
  {
  }

  lemma {:induction false} RedirectLineShape()
    ensures ShapeOf(REDIRECT_LINE) == Directive("redirect-gateway")
  {
    RedirectWord();
    RedirectSplits();
    WordLine("redirect-gateway", "def1 bypass-dhcp");
  }

  lemma RedirectSplits()
    ensures REDIRECT_LINE == "redirect-gateway" + " " + "def1 bypass-dhcp"
  {
  }

  lemma TrimTight(s: string)
    requires s != "" && !IsSpace(s[0]) && !IsSpace(Last(s))
    ensures Trim(s) == s
  {
    var k := TrimEndKeeps(s, "");
    assert s + "" == s;
  }

  lemma RedirectLineMentionsDef1()
    ensures Contains(Lower(Trim(REDIRECT_LINE)), "def1")
  {
    TrimTight(REDIRECT_LINE);
    assert OccursAt(Lower(REDIRECT_LINE), "def1", 17);
  }

  lemma AuthLineShape(path: string)
    ensures ShapeOf(AuthLine(path)) == Directive("auth-user-pass")
  {
    assert AuthLine(path) == "auth-user-pass" + " " + Slashes(path);
    WordLine("auth-user-pass", Slashes(path));
  }

  lemma DriverLineShape(driver: string)
    ensures ShapeOf(DriverLine(driver)) == Directive("windows-driver")
  {
    assert DriverLine(driver) == "windows-driver" + " " + driver;
    WordLine("windows-driver", driver);
  }

  lemma {:induction false} NocacheLineShape()
    ensures ShapeOf(NOCACHE_LINE) == Directive("auth-nocache")
  {
    LoneWord("auth-nocache");
  }

  lemma {:induction false} ScriptLineShape()
    ensures ShapeOf(SCRIPT_LINE) == Directive("script-security")
  {
    WordLine("script-security", "2");
    assert SCRIPT_LINE == "script-security" + " " + "2";
  }

  /** The four ways a line is written. */
  lemma EmittedCases(inTag: bool, raw: string, auth: Option<string>)
    ensures
      var e := Emitted(inTag, raw, auth);
      || e == raw
      || (!inTag && ShapeOf(raw) == Directive("auth-user-pass") && exists path :: e == AuthLine(path))
      || (!inTag && ShapeOf(raw) == Directive("dev") && e == DEV_LINE)
      || (!inTag && ShapeOf(raw) == Directive("redirect-gateway") && e == REDIRECT_LINE)
  {
  }

  lemma {:induction false} EmittedShape(inTag: bool, raw: string, auth: Option<string>)
    ensures ShapeOf(Emitted(inTag, raw, auth)) == ShapeOf(raw)
  {
    EmittedCases(inTag, raw, auth);
    var e := Emitted(inTag, raw, auth);
    if e == raw {
    } else if ShapeOf(raw) == Directive("dev") {
      DevLineShape();
    } else if ShapeOf(raw) == Directive("redirect-gateway") {
      RedirectLineShape();
    } else {
      var path :| e == AuthLine(path);
      AuthLineShape(path);
    }
  }

  lemma StrippedShape(raw: string)
    ensures ShapeOf(StripCr(raw)) == ShapeOf(raw)
  {
    TrimStripped(raw);
  }

  // ---- shapes decide the tracker and the probe -----------------------------

  ghost predicate SameShapes(a: seq<string>, b: seq<string>) {
    |a| == |b| &&
    forall i {:trigger ShapeOf(a[i])} {:trigger ShapeOf(b[i])} :: 0 <= i < |a| ==> ShapeOf(a[i]) == ShapeOf(b[i])
  }

  lemma {:induction false} ShapesDecideTag(a: seq<string>, b: seq<string>)
    requires SameShapes(a, b)
    ensures InTag(a) == InTag(b)
  {
    if a == [] {
    } else {
      assert ShapeOf(Last(a)) == ShapeOf(Last(b));
      ShapesDecideTag(Front(a), Front(b));
    }
  }

  lemma ShapesDecideVisible(a: seq<string>, b: seq<string>, i: nat, key: string)
    requires SameShapes(a, b) && i < |a|
    ensures Visible(a, i, key) == Visible(b, i, key)
  {
    ShapesDecideTag(a[..i], b[..i]);
  }

  lemma ShapesDecideSaw(a: seq<string>, b: seq<string>, key: string)
    requires SameShapes(a, b)
    ensures Saw(a, key) == Saw(b, key)
  {
    forall i | 0 <= i < |a| ensures Visible(a, i, key) == Visible(b, i, key) {
      ShapesDecideVisible(a, b, i, key);
    }
  }

  lemma StrippedShapes(lines: seq<string>)
    ensures SameShapes(StripAll(lines), lines)
  {
    forall i | 0 <= i < |lines| ensures ShapeOf(StripAll(lines)[i]) == ShapeOf(lines[i]) {
      StrippedShape(lines[i]);
    }
  }

  lemma {:induction false} RewrittenAt(lines: seq<string>, auth: Option<string>, i: nat)
    requires i < |lines|
    ensures Rewritten(lines, auth)[i] == Emitted(InTag(lines[..i]), lines[i], auth)
  {
    assert lines[..|lines| - 1] == Front(lines);
    if i < |lines| - 1 {
      RewrittenAt(Front(lines), auth, i);
      assert Front(lines)[..i] == lines[..i];
    }
  }

  lemma RewrittenShapes(lines: seq<string>, auth: Option<string>)
    ensures SameShapes(Rewritten(lines, auth), lines)
  {
    forall i | 0 <= i < |lines| ensures ShapeOf(Rewritten(lines, auth)[i]) == ShapeOf(lines[i]) {
      RewrittenAt(lines, auth, i);
      EmittedShape(InTag(lines[..i]), lines[i], auth);
    }
  }

  // ---- added lines ---------------------------------------------------------

  /** Directives only: neither tags nor comments. */
  ghost predicate Directives(lines: seq<string>) {
    forall i {:trigger ShapeOf(lines[i])} :: 0 <= i < |lines| ==> ShapeOf(lines[i]).Directive?
  }

  ghost predicate Names(lines: seq<string>, key: string) {
    exists i :: 0 <= i < |lines| && ShapeOf(lines[i]) == Directive(key)
  }

  lemma {:induction false} DirectivesKeepTag(lines: seq<string>, more: seq<string>)
    requires Directives(more)
    ensures InTag(lines + more) == InTag(lines)
  {
    if more == [] {
      assert lines + more == lines;
    } else {
      assert Front(lines + more) == lines + Front(more) && Last(lines + more) == Last(more);
      assert ShapeOf(more[|more| - 1]).Directive?;
      DirectivesKeepTag(lines, Front(more));
    }
  }

  lemma SeenBefore(lines: seq<string>, more: seq<string>, i: nat, key: string)
    requires i < |lines|
    ensures Visible(lines + more, i, key) == Visible(lines, i, key)
  {
    assert (lines + more)[..i] == lines[..i];
  }

  lemma SeenBehind(lines: seq<string>, more: seq<string>, i: nat, key: string)
    requires Directives(more) && |lines| <= i < |lines + more|
    ensures Visible(lines + more, i, key) <==> !InTag(lines) && ShapeOf(more[i - |lines|]) == Directive(key)
  {
    var k := i - |lines|;
    assert (lines + more)[i] == more[k];
    assert (lines + more)[..i] == lines + more[..k];
    DirectivesKeepTag(lines, more[..k]);
  }

  lemma SeenStays(lines: seq<string>, more: seq<string>, key: string)
    requires Saw(lines, key)
    ensures Saw(lines + more, key)
  {
    var i :| 0 <= i < |lines| && Visible(lines, i, key);
    SeenBefore(lines, more, i, key);
  }

  lemma {:induction false} NamedIsSeen(lines: seq<string>, more: seq<string>, key: string)
    requires Directives(more) && !InTag(lines) && Names(more, key)
    ensures Saw(lines + more, key)
  {
    var i :| 0 <= i < |more| && ShapeOf(more[i]) == Directive(key);
    SeenBehind(lines, more, |lines| + i, key);
  }

  lemma {:induction false} SeenWhere(lines: seq<string>, more: seq<string>, key: string)
    requires Directives(more) && Saw(lines + more, key)
    ensures Saw(lines, key) || (!InTag(lines) && Names(more, key))
  {
    var i :| 0 <= i < |lines + more| && Visible(lines + more, i, key);
    if i < |lines| {
      SeenBefore(lines, more, i, key);
    } else {
      SeenBehind(lines, more, i, key);
    }
  }

  /** Added directives are seen exactly when every tag is closed before them. */
  lemma {:induction false} DirectivesSeen(lines: seq<string>, more: seq<string>, key: string)
    requires Directives(more)
    ensures Saw(lines + more, key) <==> Saw(lines, key) || (!InTag(lines) && Names(more, key))
  {
    if Saw(lines, key) {
      SeenStays(lines, more, key);
    } else if !InTag(lines) && Names(more, key) {
      NamedIsSeen(lines, more, key);
    }
    if Saw(lines + more, key) {
      SeenWhere(lines, more, key);
    }
  }

  function Mark(lines: seq<string>, mark: string, line: string): seq<string> {
    if AnyLineContains(lines, mark) then [] else [line]
  }

  lemma MarkIsAppended(lines: seq<string>, mark: string, line: string)
    ensures WithLine(lines, mark, line) == lines + Mark(lines, mark, line)
  {
  }

  /** Everything the rewriter adds after the profile's own lines. */
  function Extra(lines: seq<string>, auth: Option<string>, driver: Option<string>): seq<string> {
    var body := Rewritten(lines, auth) + Appended(lines, auth, driver);
    var first := Mark(body, "auth-nocache", NOCACHE_LINE);
    Appended(lines, auth, driver) + first + Mark(body + first, "script-security", SCRIPT_LINE)
  }

  lemma PreparedSplits(lines: seq<string>, auth: Option<string>, driver: Option<string>)
    ensures Prepared(lines, auth, driver) == Rewritten(lines, auth) + Extra(lines, auth, driver)
  {
    var own, added := Rewritten(lines, auth), Appended(lines, auth, driver);
    var first := Mark(own + added, "auth-nocache", NOCACHE_LINE);
    var second := Mark(own + added + first, "script-security", SCRIPT_LINE);
    MarkIsAppended(own + added, "auth-nocache", NOCACHE_LINE);
    MarkIsAppended(own + added + first, "script-security", SCRIPT_LINE);
    Regroup(own, added, first);
    Regroup(own, added + first, second);
  }

  /** The lines the rewriter may add. */
  ghost predicate Addable(line: string, auth: Option<string>, driver: Option<string>) {
    || line == DEV_LINE || line == REDIRECT_LINE || line == NOCACHE_LINE || line == SCRIPT_LINE
    || (driver.Some? && line == DriverLine(driver.value))
    || (auth.Some? && line == AuthLine(auth.value))
  }

  lemma AppendedLine(lines: seq<string>, auth: Option<string>, driver: Option<string>, line: string)
    requires line in Appended(lines, auth, driver)
    ensures Addable(line, auth, driver)
  {
  }

  lemma AddedLine(lines: seq<string>, auth: Option<string>, driver: Option<string>, line: string)
    requires line in Extra(lines, auth, driver)
    ensures Addable(line, auth, driver)
  {
    if line in Appended(lines, auth, driver) {
      AppendedLine(lines, auth, driver, line);
    }
  }

  lemma {:induction false} ExtraDirectives(lines: seq<string>, auth: Option<string>, driver: Option<string>)
    ensures Directives(Extra(lines, auth, driver))
  {
    var extra := Extra(lines, auth, driver);
    forall i | 0 <= i < |extra| ensures ShapeOf(extra[i]).Directive? {
      AddedLine(lines, auth, driver, extra[i]);
      AddedShape(extra[i], auth, driver);
    }
  }

  lemma {:induction false} AddedShape(line: string, auth: Option<string>, driver: Option<string>)
    requires Addable(line, auth, driver)
    ensures ShapeOf(line).Directive?
  {
    if line == DEV_LINE { DevLineShape(); }
    else if line == REDIRECT_LINE { RedirectLineShape(); }
    else if line == NOCACHE_LINE { NocacheLineShape(); }
    else if line == SCRIPT_LINE { ScriptLineShape(); }
    else if driver.Some? && line == DriverLine(driver.value) { DriverLineShape(driver.value); }
    else { AuthLineShape(auth.value); }
  }
}
