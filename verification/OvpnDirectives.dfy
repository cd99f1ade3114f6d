/** What every runtime profile is guaranteed to say. */
module OvpnDirectives {
  import opened Text
  import opened Wrappers
  import opened OvpnProfile
  import opened OvpnShapes
  import opened OvpnMeaning

  // ---- what is added, and why ----------------------------------------------

  /** Why a line was added. */
  ghost predicate Due(lines: seq<string>, auth: Option<string>, driver: Option<string>, line: string) {
    || (line == DEV_LINE && !Saw(lines, "dev"))
    || (driver.Some? && line == DriverLine(driver.value) && !Saw(lines, "windows-driver"))
    || (line == REDIRECT_LINE && !Saw(lines, "redirect-gateway"))
    || (auth.Some? && line == AuthLine(auth.value) && !Saw(lines, "auth-user-pass"))
  }

  lemma {:induction false} AppendedWhy(lines: seq<string>, auth: Option<string>, driver: Option<string>, line: string)
    requires line in Appended(lines, auth, driver)
    ensures Due(lines, auth, driver, line)
  {
    var a := Lacking(Saw(lines, "dev"), DEV_LINE);
    var b := IfGiven(driver, Saw(lines, "windows-driver"), d => DriverLine(d));
    var c := Lacking(Saw(lines, "redirect-gateway"), REDIRECT_LINE);
    var d := IfGiven(auth, Saw(lines, "auth-user-pass"), path => AuthLine(path));
    assert Appended(lines, auth, driver) == a + b + c + d;
    assert line in a || line in b || line in c || line in d;
  }

  lemma {:induction false} AddedWhy(lines: seq<string>, auth: Option<string>, driver: Option<string>, line: string)
    requires line in Extra(lines, auth, driver)
    ensures Due(lines, auth, driver, line) || line == NOCACHE_LINE || line == SCRIPT_LINE
  {
    if line in Appended(lines, auth, driver) {
      AppendedWhy(lines, auth, driver, line);
    }
  }

  ghost predicate Hardening(key: string) {
    key == "auth-nocache" || key == "script-security"
  }

  /** No directive is added that the profile already had. */
  lemma {:induction false} AddedIsMissing(lines: seq<string>, auth: Option<string>, driver: Option<string>,
                                          line: string)
    returns (key: string)
    requires line in Extra(lines, auth, driver)
    ensures ShapeOf(line) == Directive(key)
    ensures Hardening(key) || !Saw(lines, key)
  {
    AddedWhy(lines, auth, driver, line);
    if line == NOCACHE_LINE { NocacheLineShape(); key := "auth-nocache"; }
    else if line == SCRIPT_LINE { ScriptLineShape(); key := "script-security"; }
    else if line == DEV_LINE && !Saw(lines, "dev") { DevLineShape(); key := "dev"; }
    else if line == REDIRECT_LINE && !Saw(lines, "redirect-gateway") { RedirectLineShape(); key := "redirect-gateway"; }
    else if driver.Some? && line == DriverLine(driver.value) && !Saw(lines, "windows-driver") {
      DriverLineShape(driver.value); key := "windows-driver";
    } else { AuthLineShape(auth.value); key := "auth-user-pass"; }
  }

  lemma MissingIsAdded(lines: seq<string>, auth: Option<string>, driver: Option<string>)
    ensures !Saw(lines, "redirect-gateway") ==> REDIRECT_LINE in Extra(lines, auth, driver)
    ensures auth.Some? && !Saw(lines, "auth-user-pass") ==> AuthLine(auth.value) in Extra(lines, auth, driver)
    ensures driver.Some? && !Saw(lines, "windows-driver") ==> DriverLine(driver.value) in Extra(lines, auth, driver)
  {
  }

  lemma {:induction false} ExtraNames(lines: seq<string>, auth: Option<string>, driver: Option<string>,
                                      line: string, key: string)
    requires line in Extra(lines, auth, driver) && ShapeOf(line) == Directive(key)
    ensures Names(Extra(lines, auth, driver), key)
  {
    var extra := Extra(lines, auth, driver);
    var i :| 0 <= i < |extra| && extra[i] == line;
    assert ShapeOf(extra[i]) == Directive(key);
  }

  /** A directive is seen in the output if it was in the input, or if it was added in the open. */
  lemma SeenAfter(lines: seq<string>, auth: Option<string>, driver: Option<string>, key: string)
    ensures
      var out := StripAll(Rewritten(lines, auth)) + StripAll(Extra(lines, auth, driver));
      Saw(out, key) <==> Saw(lines, key) || (!InTag(lines) && Names(Extra(lines, auth, driver), key))
  {
    var body, extra := Rewritten(lines, auth), Extra(lines, auth, driver);
    RewrittenShapes(lines, auth);
    StrippedShapes(body);
    StrippedShapes(extra);
    ExtraDirectives(lines, auth, driver);
    ShapesDecideSaw(StripAll(body), lines, key);
    ShapesDecideTag(StripAll(body), lines);
    SameDirectives(StripAll(extra), extra, key);
    DirectivesSeen(StripAll(body), StripAll(extra), key);
  }

  lemma SameDirectives(a: seq<string>, b: seq<string>, key: string)
    requires SameShapes(a, b) && Directives(b)
    ensures Directives(a) && (Names(a, key) <==> Names(b, key))
  {
    forall i | 0 <= i < |a| ensures ShapeOf(a[i]) == ShapeOf(b[i]) && ShapeOf(a[i]).Directive? {
    }
  }

  /**
    The credentials probe on the runtime profile, exactly: without a
    credentials file it answers as before; with one it is true unless the
    profile asked for none and ends inside an unclosed tag.
   */
  lemma {:induction false} ProbeAfterRewriting(text: string, auth: Option<string>, driver: Option<string>)
    requires OneLiners(auth, driver)
    ensures NeedsAuth(Prepare(text, auth, driver))
       <==> NeedsAuth(text) || (auth.Some? && !InTag(Lines(text)))
  {
    var lines := Lines(text);
    PreparedLines(text, auth, driver);
    SeenAfter(lines, auth, driver, "auth-user-pass");
    MissingIsAdded(lines, auth, driver);
    if auth.Some? && !Saw(lines, "auth-user-pass") {
      AuthLineShape(auth.value);
      ExtraNames(lines, auth, driver, AuthLine(auth.value), "auth-user-pass");
    }
    if auth.None? && Names(Extra(lines, auth, driver), "auth-user-pass") {
      NoAuthAdded(lines, driver);
    }
  }

  lemma {:induction false} NoAuthAdded(lines: seq<string>, driver: Option<string>)
    ensures !Names(Extra(lines, None, driver), "auth-user-pass")
  {
    var extra := Extra(lines, None, driver);
    ExtraAddable(lines, None, driver);
    forall i | 0 <= i < |extra| ensures ShapeOf(extra[i]) != Directive("auth-user-pass") {
      NoAuthLine(extra[i], driver);
    }
  }

  lemma {:induction false} NoAuthLine(line: string, driver: Option<string>)
    requires Addable(line, None, driver)
    ensures ShapeOf(line) != Directive("auth-user-pass")
  {
    if line == DEV_LINE { DevLineShape(); }
    else if line == REDIRECT_LINE { RedirectLineShape(); }
    else if line == NOCACHE_LINE { NocacheLineShape(); }
    else if line == SCRIPT_LINE { ScriptLineShape(); }
    else { DriverLineShape(driver.value); }
  }

  /** A default route is requested in the open exactly when the profile had one or closes its tags. */
  lemma RedirectAfterRewriting(text: string, auth: Option<string>, driver: Option<string>)
    requires OneLiners(auth, driver)
    ensures Saw(Lines(Prepare(text, auth, driver)), "redirect-gateway")
       <==> Saw(Lines(text), "redirect-gateway") || !InTag(Lines(text))
  {
    var lines := Lines(text);
    PreparedLines(text, auth, driver);
    SeenAfter(lines, auth, driver, "redirect-gateway");
    MissingIsAdded(lines, auth, driver);
    if !Saw(lines, "redirect-gateway") {
      RedirectLineShape();
      ExtraNames(lines, auth, driver, REDIRECT_LINE, "redirect-gateway");
    }
  }

  // ---- what each visible directive says ------------------------------------

  /** The path with every backslash turned round and nothing else changed. */
  predicate Slashed(path: string, written: string) {
    && |written| == |path|
    && forall i :: 0 <= i < |path| ==> written[i] == if path[i] == '\\' then '/' else path[i]
  }

  /** Blanks at the ends aside, the line names the file. */
  ghost predicate NamesGiven(line: string, path: string) {
    exists written {:trigger Slashed(path, written)} ::
      Slashed(path, written) && Trim(line) == Trim("auth-user-pass " + written)
  }

  lemma {:induction false} AuthLineNamesGiven(path: string)
    ensures NamesGiven(AuthLine(path), path)
  {
    assert Slashed(path, Slashes(path));
  }

  ghost predicate Settled(line: string, auth: Option<string>) {
    var words := Words(Trim(line));
    && (ShapeOf(line) == Directive("dev") ==> words == ["dev", "tun"])
    && (ShapeOf(line) == Directive("redirect-gateway") ==> Contains(Lower(Trim(line)), "def1"))
    && (ShapeOf(line) == Directive("auth-user-pass") ==>
          if auth.Some? then NamesGiven(line, auth.value)
          else |words| > 1 ==> '\\' !in words[1])
  }

  lemma SlashesClean(path: string)
    ensures '\\' !in Slashes(path)
  {
    assert forall i :: 0 <= i < |path| ==> Slashes(path)[i] != '\\';
  }

  lemma {:induction false} WordsNonEmpty(s: string, i: nat)
    requires i < |Words(s)|
    ensures Words(s)[i] != ""
    decreases |s|
  {
    var t := TrimStart(s);
    if i > 0 {
      WordsNonEmpty(t[|TakeWord(t)|..], i - 1);
    }
  }

  lemma FixedOperand(raw: string)
    requires |Words(Trim(raw))| > 1
    ensures
      var operand := Words(Trim(raw))[1];
      Words(Trim(AuthLine(operand))) == ["auth-user-pass", Slashes(operand)]
  {
    var operand := Words(Trim(raw))[1];
    WordsHaveNoSpace(Trim(raw), 1);
    WordsNonEmpty(Trim(raw), 1);
    var fixed := Slashes(operand);
    assert forall i :: 0 <= i < |fixed| ==> operand[i] == fixed[i] || fixed[i] == '/';
    assert AuthLine(operand) == "auth-user-pass" + " " + fixed;
    AuthWord();
    TwoWords("auth-user-pass", fixed);
  }

  lemma AuthWord()
    ensures Word("auth-user-pass")
  {
  }

  lemma {:induction false} CredentialsSettled(raw: string, auth: Option<string>)
    requires ShapeOf(raw) == Directive("auth-user-pass")
    ensures Settled(Emitted(false, raw, auth), auth)
  {
    EmittedShape(false, raw, auth);
    if auth.Some? {
      AuthLineNamesGiven(auth.value);
    } else if |Words(Trim(raw))| > 1 {
      FixedOperand(raw);
      SlashesClean(Words(Trim(raw))[1]);
    }
  }

  lemma {:induction false} RedirectSettled(raw: string, auth: Option<string>)
    requires ShapeOf(raw) == Directive("redirect-gateway")
    ensures Settled(Emitted(false, raw, auth), auth)
  {
    EmittedShape(false, raw, auth);
    RedirectLineMentionsDef1();
  }

  lemma {:induction false} EmittedSettled(raw: string, auth: Option<string>)
    ensures Settled(Emitted(false, raw, auth), auth)
  {
    EmittedShape(false, raw, auth);
    if ShapeOf(raw) == Directive("dev") {
      DevLineShape();
    } else if ShapeOf(raw) == Directive("redirect-gateway") {
      RedirectSettled(raw, auth);
    } else if ShapeOf(raw) == Directive("auth-user-pass") {
      CredentialsSettled(raw, auth);
    }
  }

  lemma {:induction false} AddedSettled(line: string, auth: Option<string>, driver: Option<string>)
    requires Addable(line, auth, driver)
    ensures Settled(line, auth)
  {
    if line == DEV_LINE { DevLineShape(); }
    else if line == REDIRECT_LINE { RedirectLineShape(); RedirectLineMentionsDef1(); }
    else if line == NOCACHE_LINE { NocacheLineShape(); }
    else if line == SCRIPT_LINE { ScriptLineShape(); }
    else if driver.Some? && line == DriverLine(driver.value) { DriverLineShape(driver.value); }
    else { AuthLineShape(auth.value); AuthLineNamesGiven(auth.value); }
  }

  /**
    Of the directives outside tags in the runtime profile, every `dev` is
    "dev tun", every `redirect-gateway` mentions def1, and every
    `auth-user-pass` names the given credentials file, or, when none is given,
    an operand without backslashes.
   */
  lemma {:induction false} DirectivesSettled(text: string, auth: Option<string>, driver: Option<string>,
                                             i: nat, key: string)
    requires OneLiners(auth, driver)
    requires i < |Lines(Prepare(text, auth, driver))|
    requires Visible(Lines(Prepare(text, auth, driver)), i, key)
    ensures Settled(Lines(Prepare(text, auth, driver))[i], auth)
  {
    var lines := Lines(text);
    var body, extra := Rewritten(lines, auth), Extra(lines, auth, driver);
    var out := Lines(Prepare(text, auth, driver));
    PreparedLines(text, auth, driver);
    if i < |lines| {
      assert out[i] == StripCr(body[i]);
      assert out[..i] == StripAll(body[..i]);
      RewrittenShapes(lines, auth);
      StrippedShapes(body[..i]);
      ShapesDecideTag(StripAll(body[..i]), lines[..i]);
      RewrittenAt(lines, auth, i);
      TrimStripped(body[i]);
      EmittedSettled(lines[i], auth);
    } else {
      var line := extra[i - |lines|];
      assert out[i] == StripCr(line);
      ExtraAddable(lines, auth, driver);
      TrimStripped(line);
      AddedSettled(line, auth, driver);
    }
  }

  // ---- what is left alone --------------------------------------------------

  /** The directives the rewriter may change. */
  predicate Rewritable(key: string) {
    key == "auth-user-pass" || key == "dev" || key == "redirect-gateway"
  }

  /**
    Everything else is copied: a line that is not a visible `auth-user-pass`,
    `dev` or `redirect-gateway` directive stands in the runtime profile at its
    old place, unchanged; so does any line inside a tag.
   */
  lemma {:induction false} OtherLinesAreCopied(text: string, auth: Option<string>, driver: Option<string>, i: nat)
    requires OneLiners(auth, driver)
    requires i < |Lines(text)|
    requires forall key :: Rewritable(key) ==> !Visible(Lines(text), i, key)
    ensures i < |Lines(Prepare(text, auth, driver))|
    ensures Lines(Prepare(text, auth, driver))[i] == StripCr(Lines(text)[i])
  {
    var lines := Lines(text);
    PreparedLines(text, auth, driver);
    RewrittenAt(lines, auth, i);
    EmittedCases(InTag(lines[..i]), lines[i], auth);
    assert Rewritable("auth-user-pass") && Rewritable("dev") && Rewritable("redirect-gateway");
    assert Rewritten(lines, auth)[i] == lines[i];
    assert StripAll(Rewritten(lines, auth))[i] == StripCr(Rewritten(lines, auth)[i]);
  }
}
