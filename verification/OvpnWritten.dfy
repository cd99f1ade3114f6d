/**
  The runtime profile, line for line: what is written for each line of the
  imported one, and what is added after them.
 */
module OvpnWritten {
  import opened Sequences
  import opened Text
  import opened Wrappers
  import opened OvpnProfile
  import opened OvpnReading
  import opened OvpnShapes
  import opened OvpnMeaning
  import opened OvpnDirectives

  // ---- the credentials file ------------------------------------------------

  /** The line names the file, up to a carriage return at its end. */
  ghost predicate NamesFile(line: string, path: string) {
    exists written {:trigger Slashed(path, written)} ::
      Slashed(path, written) && line == StripCr("auth-user-pass " + written)
  }

  lemma {:induction false} AuthLineNamesFile(path: string)
    ensures NamesFile(StripCr(AuthLine(path)), path)
  {
    assert Slashed(path, Slashes(path));
  }

  // ---- the lines of the profile --------------------------------------------

  /** What is written for a line, given those before it. */
  ghost predicate WrittenFor(before: seq<string>, line: string, auth: Option<string>, written: string) {
    if Asks(before, line, "dev") then written == "dev tun"
    else if Asks(before, line, "redirect-gateway") && !Contains(Lower(Trim(line)), "def1") then
      written == "redirect-gateway def1 bypass-dhcp"
    else if Asks(before, line, "auth-user-pass") && auth.Some? then NamesFile(written, auth.value)
    else if Asks(before, line, "auth-user-pass") && |Fields(line)| > 1 then NamesFile(written, Fields(line)[1])
    else written == StripCr(line)
  }

  /** The same of the rewriter's own line, by the name of the directive if it is in the open. */
  lemma {:induction false} EmittedFor(inTag: bool, line: string, auth: Option<string>)
    ensures
      var e, open := Emitted(inTag, line, auth), !inTag && Speaking(line);
      var key := Key(Words(Trim(line)));
      if open && key == "dev" then e == DEV_LINE
      else if open && key == "redirect-gateway" && !Contains(Lower(Trim(line)), "def1") then e == REDIRECT_LINE
      else if open && key == "auth-user-pass" && auth.Some? then e == AuthLine(auth.value)
      else if open && key == "auth-user-pass" && |Fields(line)| > 1 then e == AuthLine(Fields(line)[1])
      else e == line
  {
  }

  lemma {:induction false} OwnLinesHaveNoCr()
    ensures StripCr(DEV_LINE) == "dev tun" && StripCr(REDIRECT_LINE) == "redirect-gateway def1 bypass-dhcp"
    ensures StripCr(NOCACHE_LINE) == "auth-nocache" && StripCr(SCRIPT_LINE) == "script-security 2"
  {
  }

  /** A speaking line asks for what its first word names, outside the rewriter's tags. */
  lemma {:induction false} AsksByKey(before: seq<string>, line: string, key: string)
    requires key != ""
    ensures Asks(before, line, key) <==> !InTag(before) && Speaking(line) && Key(Words(Trim(line))) == key
  {
    InTagIsWithin(before);
  }

  lemma {:induction false} StrippedFor(before: seq<string>, line: string, auth: Option<string>)
    ensures WrittenFor(before, line, auth, StripCr(Emitted(InTag(before), line, auth)))
  {
    EmittedFor(InTag(before), line, auth);
    AsksByKey(before, line, "dev");
    AsksByKey(before, line, "redirect-gateway");
    AsksByKey(before, line, "auth-user-pass");
    OwnLinesHaveNoCr();
    if auth.Some? { AuthLineNamesFile(auth.value); }
    if |Fields(line)| > 1 { AuthLineNamesFile(Fields(line)[1]); }
  }

  /** Line for line, what the runtime profile says where the imported one said something. */
  lemma {:induction false} LineForLine(text: string, auth: Option<string>, driver: Option<string>, i: nat)
    requires OneLiners(auth, driver) && i < |Lines(text)|
    ensures i < |Lines(Prepare(text, auth, driver))|
    ensures WrittenFor(Lines(text)[..i], Lines(text)[i], auth, Lines(Prepare(text, auth, driver))[i])
  {
    var lines := Lines(text);
    PreparedLines(text, auth, driver);
    RewrittenAt(lines, auth, i);
    StrippedFor(lines[..i], lines[i], auth);
    assert StripAll(Rewritten(lines, auth))[i] == StripCr(Rewritten(lines, auth)[i]);
  }

  /** Each line is what is written for the profile's line at its place. */
  ghost predicate StandsFor(lines: seq<string>, auth: Option<string>, out: seq<string>) {
    |lines| <= |out| &&
    forall i {:trigger out[i]} :: 0 <= i < |lines| ==> WrittenFor(lines[..i], lines[i], auth, out[i])
  }

  lemma {:induction false} EveryLineStands(text: string, auth: Option<string>, driver: Option<string>)
    requires OneLiners(auth, driver)
    ensures StandsFor(Lines(text), auth, Lines(Prepare(text, auth, driver)))
  {
    var lines, out := Lines(text), Lines(Prepare(text, auth, driver));
    PreparedLines(text, auth, driver);
    forall i | 0 <= i < |lines| ensures WrittenFor(lines[..i], lines[i], auth, out[i]) {
      LineForLine(text, auth, driver, i);
    }
  }

  // ---- every visible credentials directive ---------------------------------

  lemma {:induction false} AddedAuthIsGiven(line: string, auth: Option<string>, driver: Option<string>)
    requires Addable(line, auth, driver) && ShapeOf(line) == Directive("auth-user-pass")
    ensures auth.Some? && line == AuthLine(auth.value)
  {
    if line == DEV_LINE { DevLineShape(); }
    else if line == REDIRECT_LINE { RedirectLineShape(); }
    else if line == NOCACHE_LINE { NocacheLineShape(); }
    else if line == SCRIPT_LINE { ScriptLineShape(); }
    else if driver.Some? && line == DriverLine(driver.value) { DriverLineShape(driver.value); }
  }

  lemma {:induction false} VisibleAuthIsGiven(lines: seq<string>, path: string, driver: Option<string>, i: nat)
    requires i < |lines| && Visible(StripAll(Rewritten(lines, Some(path))), i, "auth-user-pass")
    ensures StripAll(Rewritten(lines, Some(path)))[i] == StripCr(AuthLine(path))
  {
    var body := Rewritten(lines, Some(path));
    assert StripAll(body)[..i] == StripAll(body[..i]);
    RewrittenShapes(lines, Some(path));
    StrippedShapes(body[..i]);
    ShapesDecideTag(StripAll(body[..i]), lines[..i]);
    RewrittenAt(lines, Some(path), i);
    TrimStripped(body[i]);
    EmittedShape(false, lines[i], Some(path));
    EmittedFor(false, lines[i], Some(path));
  }

  /** With a credentials file given, every visible `auth-user-pass` of the runtime profile names it. */
  lemma {:induction false} CredentialsAreNamed(text: string, path: string, driver: Option<string>, i: nat)
    requires OneLiners(Some(path), driver)
    requires i < |Lines(Prepare(text, Some(path), driver))|
    requires Asks(Lines(Prepare(text, Some(path), driver))[..i], Lines(Prepare(text, Some(path), driver))[i],
                  "auth-user-pass")
    ensures NamesFile(Lines(Prepare(text, Some(path), driver))[i], path)
  {
    var lines, out := Lines(text), Lines(Prepare(text, Some(path), driver));
    var body, extra := StripAll(Rewritten(lines, Some(path))), Extra(lines, Some(path), driver);
    PreparedLines(text, Some(path), driver);
    VisibleIsAsked(out, i, "auth-user-pass");
    AuthLineNamesFile(path);
    if i < |lines| {
      assert out[..i] == body[..i] && out[i] == body[i];
      VisibleAuthIsGiven(lines, path, driver, i);
    } else {
      var line := extra[i - |lines|];
      assert out[i] == StripCr(line);
      StrippedShape(line);
      ExtraAddable(lines, Some(path), driver);
      AddedAuthIsGiven(line, Some(path), driver);
    }
  }

  // ---- the lines that are added --------------------------------------------

  /** The profile has that directive in the open. */
  ghost predicate Asked(lines: seq<string>, key: string) {
    exists i {:trigger AskedAt(lines, i, key)} :: 0 <= i < |lines| && AskedAt(lines, i, key)
  }

  ghost predicate AskedAt(lines: seq<string>, i: nat, key: string)
    requires i < |lines|
  {
    Asks(lines[..i], lines[i], key)
  }

  lemma {:induction false} SawIsAsked(lines: seq<string>, key: string)
    requires key != ""
    ensures Saw(lines, key) <==> Asked(lines, key)
  {
    forall i | 0 <= i < |lines| ensures Visible(lines, i, key) <==> AskedAt(lines, i, key) {
      VisibleIsAsked(lines, i, key);
    }
  }

  lemma {:induction false} StrippedMentions(lines: seq<string>, mark: string)
    requires mark != "" && '\r' !in mark
    ensures AnyLineContains(StripAll(lines), mark) <==> AnyLineContains(lines, mark)
  {
    forall i | 0 <= i < |lines| ensures Contains(Lower(StripAll(lines)[i]), mark) <==> Contains(Lower(lines[i]), mark) {
      StripCrContains(lines[i], mark);
    }
  }

  /** The missing directives, in the order they are added. */
  ghost predicate Missing(lines: seq<string>, auth: Option<string>, driver: Option<string>,
                          dev: seq<string>, windows: seq<string>, redirect: seq<string>, credentials: seq<string>)
  {
    && dev == (if Asked(lines, "dev") then [] else ["dev tun"])
    && windows == (if driver.None? || Asked(lines, "windows-driver") then []
                   else [StripCr("windows-driver " + driver.value)])
    && redirect == (if Asked(lines, "redirect-gateway") then [] else ["redirect-gateway def1 bypass-dhcp"])
    && |credentials| == (if auth.None? || Asked(lines, "auth-user-pass") then 0 else 1)
    && (credentials != [] ==> NamesFile(credentials[0], auth.value))
  }

  lemma StrippedLine(present: bool, line: string)
    ensures StripAll(Lacking(present, line)) == if present then [] else [StripCr(line)]
  {
  }

  lemma {:induction false} AppendedParts(lines: seq<string>, auth: Option<string>, driver: Option<string>)
    returns (a: seq<string>, b: seq<string>, c: seq<string>, d: seq<string>)
    ensures Appended(lines, auth, driver) == a + b + c + d
    ensures Missing(lines, auth, driver, StripAll(a), StripAll(b), StripAll(c), StripAll(d))
  {
    a := Lacking(Saw(lines, "dev"), DEV_LINE);
    b := IfGiven(driver, Saw(lines, "windows-driver"), name => DriverLine(name));
    c := Lacking(Saw(lines, "redirect-gateway"), REDIRECT_LINE);
    d := IfGiven(auth, Saw(lines, "auth-user-pass"), path => AuthLine(path));
    SawIsAsked(lines, "dev");
    SawIsAsked(lines, "windows-driver");
    SawIsAsked(lines, "redirect-gateway");
    SawIsAsked(lines, "auth-user-pass");
    OwnLinesHaveNoCr();
    StrippedLine(Saw(lines, "dev"), DEV_LINE);
    StrippedLine(Saw(lines, "redirect-gateway"), REDIRECT_LINE);
    if driver.Some? { StrippedLine(Saw(lines, "windows-driver"), DriverLine(driver.value)); }
    if auth.Some? {
      StrippedLine(Saw(lines, "auth-user-pass"), AuthLine(auth.value));
      AuthLineNamesFile(auth.value);
    }
  }

  lemma StrippedJoin(a: seq<string>, b: seq<string>, c: seq<string>)
    ensures StripAll(a + b + c) == StripAll(a) + StripAll(b) + StripAll(c)
  {
    StripAllJoins(a + b, c);
    StripAllJoins(a, b);
  }

  lemma {:induction false} StrippedFour(a: seq<string>, b: seq<string>, c: seq<string>, d: seq<string>)
    ensures StripAll(a + b + c + d) == StripAll(a) + StripAll(b) + StripAll(c) + StripAll(d)
  {
    StrippedJoin(a, b, c);
    StripAllJoins(a + b + c, d);
  }

  /** A hardening line follows unless some line before it mentions the mark. */
  predicate Hardens(before: seq<string>, mark: string, line: string, added: seq<string>) {
    added == if AnyLineContains(before, mark) then [] else [line]
  }

  lemma {:induction false} MarkHardens(before: seq<string>, mark: string, line: string)
    requires mark != "" && '\r' !in mark
    ensures Hardens(StripAll(before), mark, StripCr(line), StripAll(Mark(before, mark, line)))
  {
    StrippedMentions(before, mark);
  }

  /** Own lines, directives, and the two hardening lines, read back. */
  lemma {:induction false} ReadBackParts(lines: seq<string>, auth: Option<string>, driver: Option<string>)
    returns (body: seq<string>, added: seq<string>, nocache: seq<string>, script: seq<string>)
    ensures body == StripAll(Rewritten(lines, auth)) && added == StripAll(Appended(lines, auth, driver))
    ensures StripAll(Rewritten(lines, auth)) + StripAll(Extra(lines, auth, driver)) == body + added + nocache + script
    ensures Hardens(body + added, "auth-nocache", "auth-nocache", nocache)
    ensures Hardens(body + added + nocache, "script-security", "script-security 2", script)
  {
    var own, more := Rewritten(lines, auth), Appended(lines, auth, driver);
    var first := Mark(own + more, "auth-nocache", NOCACHE_LINE);
    var second := Mark(own + more + first, "script-security", SCRIPT_LINE);
    body, added, nocache, script := StripAll(own), StripAll(more), StripAll(first), StripAll(second);
    OwnLinesHaveNoCr();
    MarkHardens(own + more, "auth-nocache", NOCACHE_LINE);
    MarkHardens(own + more + first, "script-security", SCRIPT_LINE);
    StripAllJoins(own, more);
    StrippedJoin(own, more, first);
    StrippedJoin(more, first, second);
    Regroup(body, added, nocache);
    Regroup(body, added + nocache, script);
  }

  /**
    After the profile's own lines come exactly the directives it lacks, in
    this order, then the two hardening lines unless they are mentioned.
   */
  lemma {:induction false} WhatIsAdded(text: string, auth: Option<string>, driver: Option<string>)
    returns (body: seq<string>, dev: seq<string>, windows: seq<string>, redirect: seq<string>,
             credentials: seq<string>, nocache: seq<string>, script: seq<string>)
    requires OneLiners(auth, driver)
    ensures |body| == |Lines(text)|
    ensures Missing(Lines(text), auth, driver, dev, windows, redirect, credentials)
    ensures
      var directives := dev + windows + redirect + credentials;
      && Lines(Prepare(text, auth, driver)) == body + directives + nocache + script
      && Hardens(body + directives, "auth-nocache", "auth-nocache", nocache)
      && Hardens(body + directives + nocache, "script-security", "script-security 2", script)
  {
    var a, b, c, d := AppendedParts(Lines(text), auth, driver);
    dev, windows, redirect, credentials := StripAll(a), StripAll(b), StripAll(c), StripAll(d);
    StrippedFour(a, b, c, d);
    PreparedLines(text, auth, driver);
    var added;
    body, added, nocache, script := ReadBackParts(Lines(text), auth, driver);
  }
}
