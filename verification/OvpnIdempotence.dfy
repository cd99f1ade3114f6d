/** Rewriting a rewritten profile: when it changes nothing, exactly. */
module OvpnIdempotence {
  import opened Sequences
  import opened Text
  import opened Wrappers
  import opened OvpnProfile
  import opened OvpnShapes
  import opened OvpnMeaning
  import opened OvpnDirectives

  predicate EndsCr(s: string) {
    s != "" && Last(s) == '\r'
  }

  // ---- line by line --------------------------------------------------------

  /** The rewriter writes something of its own for this line. */
  predicate Overwrites(inTag: bool, raw: string, auth: Option<string>) {
    var t := Trim(raw);
    && !inTag
    && match ShapeOf(raw)
       case Directive(key) =>
         || key == "dev"
         || (key == "auth-user-pass" && (auth.Some? || |Words(t)| > 1))
         || (key == "redirect-gateway" && !Contains(Lower(t), "def1"))
       case _ => false
  }

  /** Every other line is copied; and what is written depends only on the trimmed line. */
  lemma {:induction false} EmittedBy(inTag: bool, raw: string, twin: string, auth: Option<string>)
    requires Trim(twin) == Trim(raw)
    ensures Overwrites(inTag, twin, auth) == Overwrites(inTag, raw, auth)
    ensures if Overwrites(inTag, raw, auth) then Emitted(inTag, twin, auth) == Emitted(inTag, raw, auth)
            else Emitted(inTag, raw, auth) == raw && Emitted(inTag, twin, auth) == twin
  {
  }

  /** What the rewriter writes of its own, it writes again. */
  lemma {:induction false} OverwrittenTwice(raw: string, auth: Option<string>)
    requires Overwrites(false, raw, auth)
    ensures Emitted(false, Emitted(false, raw, auth), auth) == Emitted(false, raw, auth)
  {
    var e := Emitted(false, raw, auth);
    EmittedShape(false, raw, auth);
    if ShapeOf(raw) == Directive("redirect-gateway") {
      RedirectLineMentionsDef1();
    } else if ShapeOf(raw) == Directive("auth-user-pass") && auth.None? {
      FixedOperand(raw);
      SlashesTwice(Words(Trim(raw))[1]);
    }
  }

  lemma SlashesTwice(path: string)
    ensures Slashes(Slashes(path)) == Slashes(path)
  {
  }

  lemma {:induction false} EmittedTwice(inTag: bool, raw: string, auth: Option<string>)
    ensures Emitted(inTag, Emitted(inTag, raw, auth), auth) == Emitted(inTag, raw, auth)
  {
    EmittedBy(inTag, raw, raw, auth);
    if Overwrites(inTag, raw, auth) {
      OverwrittenTwice(raw, auth);
    }
  }

  /** Only a given path can make a line of the rewriter's own end in a carriage return. */
  lemma {:induction false} OwnLineEnd(raw: string, auth: Option<string>)
    requires Overwrites(false, raw, auth) && EndsCr(Emitted(false, raw, auth))
    ensures ShapeOf(raw) == Directive("auth-user-pass") && auth.Some?
    ensures Emitted(false, raw, auth) == AuthLine(auth.value)
  {
    if ShapeOf(raw) == Directive("auth-user-pass") && auth.None? {
      WordsHaveNoSpace(Trim(raw), 1);
      AuthLineEnd(Words(Trim(raw))[1]);
    }
  }

  lemma AuthLineEnd(path: string)
    requires NoSpace(path)
    ensures !EndsCr(AuthLine(path))
  {
    if path != "" {
      assert Last(AuthLine(path)) == Last(Slashes(path));
      assert !IsSpace(path[|path| - 1]);
    }
  }

  /** The second pass reads the written line without its carriage return, and restores it or not. */
  lemma {:induction false} SecondEmission(inTag: bool, raw: string, auth: Option<string>)
    ensures Emitted(inTag, StripCr(Emitted(inTag, raw, auth)), auth) == Emitted(inTag, raw, auth)
       <==> !(EndsCr(raw) && !Overwrites(inTag, raw, auth))
  {
    var e := Emitted(inTag, raw, auth);
    EmittedBy(inTag, raw, raw, auth);
    EmittedTwice(inTag, raw, auth);
    if !Overwrites(inTag, raw, auth) {
      TrimStripped(raw);
      EmittedBy(inTag, raw, StripCr(raw), auth);
    } else if EndsCr(e) {
      OwnLineEnd(raw, auth);
      TrimStripped(e);
      AuthLineShape(auth.value);
      EmittedBy(inTag, e, StripCr(e), auth);
    }
  }

  /** A directive the rewriter has no business with is copied. */
  lemma {:induction false} OtherIsCopied(inTag: bool, line: string, key: string, auth: Option<string>)
    requires ShapeOf(line) == Directive(key) && !Rewritable(key)
    ensures Emitted(inTag, line, auth) == line && !Overwrites(inTag, line, auth)
  {
  }

  /** The added lines the rewriter itself rewrites, to themselves. */
  lemma {:induction false} OwnDirectivesStay(inTag: bool, auth: Option<string>)
    ensures Emitted(inTag, DEV_LINE, auth) == DEV_LINE
    ensures Emitted(inTag, REDIRECT_LINE, auth) == REDIRECT_LINE
  {
    DevLineShape();
    RedirectLineShape();
    RedirectLineMentionsDef1();
  }

  lemma {:induction false} HardeningStays(inTag: bool, auth: Option<string>)
    ensures Emitted(inTag, NOCACHE_LINE, auth) == NOCACHE_LINE && Emitted(inTag, SCRIPT_LINE, auth) == SCRIPT_LINE
  {
    NocacheLineShape();
    OtherIsCopied(inTag, NOCACHE_LINE, "auth-nocache", auth);
    ScriptLineShape();
    OtherIsCopied(inTag, SCRIPT_LINE, "script-security", auth);
  }

  lemma {:induction false} GivenLinesStay(inTag: bool, path: string, driver: string)
    ensures Emitted(inTag, AuthLine(path), Some(path)) == AuthLine(path)
    ensures forall auth :: Emitted(inTag, DriverLine(driver), auth) == DriverLine(driver)
    ensures forall auth :: !Overwrites(inTag, DriverLine(driver), auth)
    ensures Overwrites(inTag, AuthLine(path), Some(path)) == !inTag
  {
    AuthLineShape(path);
    DriverLineShape(driver);
    forall auth
      ensures Emitted(inTag, DriverLine(driver), auth) == DriverLine(driver)
      ensures !Overwrites(inTag, DriverLine(driver), auth)
    {
      OtherIsCopied(inTag, DriverLine(driver), "windows-driver", auth);
    }
  }

  lemma {:induction false} AddedTwice(inTag: bool, line: string, auth: Option<string>, driver: Option<string>)
    requires Addable(line, auth, driver)
    ensures Emitted(inTag, line, auth) == line
  {
    OwnDirectivesStay(inTag, auth);
    HardeningStays(inTag, auth);
    GivenLinesStay(inTag, if auth.Some? then auth.value else "", if driver.Some? then driver.value else "");
  }

  /** Of the added lines only the given path's and the given driver's can end in a carriage return. */
  lemma {:induction false} AddedEnd(line: string, auth: Option<string>, driver: Option<string>)
    requires Addable(line, auth, driver) && EndsCr(line)
    ensures (auth.Some? && line == AuthLine(auth.value))
         || (driver.Some? && line == DriverLine(driver.value) && EndsCr(driver.value))
  {
    if driver.Some? && line == DriverLine(driver.value) && driver.value != "" {
      assert Last(line) == Last(driver.value);
    }
  }

  /** The second pass gives an added line back, unless it is a driver's that loses its carriage return. */
  lemma {:induction false} AddedSecondEmission(inTag: bool, line: string, auth: Option<string>, driver: Option<string>)
    requires Addable(line, auth, driver)
    ensures Emitted(inTag, StripCr(line), auth) == line <==> !(EndsCr(line) && !Overwrites(inTag, line, auth))
  {
    AddedTwice(inTag, line, auth, driver);
    TrimStripped(line);
    EmittedBy(inTag, line, StripCr(line), auth);
  }

  // ---- the second pass over the lines --------------------------------------

  /** The line is copied and still ends in a carriage return. */
  predicate LosesCr(inTag: bool, line: string, auth: Option<string>) {
    EndsCr(line) && !Overwrites(inTag, line, auth)
  }

  predicate LosesCrAt(lines: seq<string>, auth: Option<string>, i: nat)
    requires i < |lines|
  {
    LosesCr(InTag(lines[..i]), lines[i], auth)
  }

  /** The first pass copies a line that still ends in a carriage return. */
  predicate CopiesCr(lines: seq<string>, auth: Option<string>) {
    exists i :: 0 <= i < |lines| && LosesCrAt(lines, auth, i)
  }

  /** One of the added lines will be copied and ends in a carriage return. */
  ghost predicate AddsCr(lines: seq<string>, extra: seq<string>, auth: Option<string>) {
    exists k :: 0 <= k < |extra| && LosesCr(InTag(lines), extra[k], auth)
  }

  /** Lines that stand for those of the profile, read back: the tag tracker is where it was. */
  lemma {:induction false} TagAfterReading(lines: seq<string>, body: seq<string>, extra: seq<string>, i: nat)
    requires SameShapes(body, lines) && i <= |lines|
    ensures InTag(StripAll(body + extra)[..i]) == InTag(lines[..i])
  {
    assert StripAll(body + extra)[..i] == StripAll(body[..i]);
    StrippedShapes(body[..i]);
    ShapesDecideTag(StripAll(body[..i]), lines[..i]);
  }

  lemma {:induction false} ReadPrefix(body: seq<string>, extra: seq<string>, k: nat)
    requires k <= |extra|
    ensures StripAll(body + extra)[..|body| + k] == StripAll(body) + StripAll(extra)[..k]
  {
    StripAllJoins(body, extra);
  }

  lemma {:induction false} StrippedDirectives(lines: seq<string>, k: nat)
    requires Directives(lines) && k <= |lines|
    ensures Directives(StripAll(lines)[..k])
  {
    StrippedShapes(lines);
  }

  lemma {:induction false} AdditionsKeepTag(base: seq<string>, extra: seq<string>, k: nat)
    requires Directives(extra) && k <= |extra|
    ensures InTag(base + StripAll(extra)[..k]) == InTag(base)
  {
    StrippedDirectives(extra, k);
    DirectivesKeepTag(base, StripAll(extra)[..k]);
  }

  lemma {:induction false} TagBehind(lines: seq<string>, body: seq<string>, extra: seq<string>, k: nat)
    requires SameShapes(body, lines) && Directives(extra) && k <= |extra|
    ensures InTag(StripAll(body + extra)[..|body| + k]) == InTag(lines)
  {
    ReadPrefix(body, extra, k);
    AdditionsKeepTag(StripAll(body), extra, k);
    BodyTag(lines, body);
  }

  lemma {:induction false} BodyTag(lines: seq<string>, body: seq<string>)
    requires SameShapes(body, lines)
    ensures InTag(StripAll(body)) == InTag(lines)
  {
    StrippedShapes(body);
    ShapesDecideTag(StripAll(body), body);
    ShapesDecideTag(body, lines);
  }

  /** The profile's lines as written, then the added ones. */
  function Once(lines: seq<string>, extra: seq<string>, auth: Option<string>): (once: seq<string>)
    ensures |once| == |lines| + |extra|
  {
    Rewritten(lines, auth) + extra
  }

  /** The same, read back and written again. */
  function Twice(lines: seq<string>, extra: seq<string>, auth: Option<string>): (twice: seq<string>)
    ensures |twice| == |lines| + |extra|
  {
    Rewritten(StripAll(Once(lines, extra, auth)), auth)
  }

  lemma {:induction false} SecondPassAt(lines: seq<string>, extra: seq<string>, auth: Option<string>, i: nat)
    requires i < |lines|
    ensures Twice(lines, extra, auth)[i] == Once(lines, extra, auth)[i]
       <==> !LosesCrAt(lines, auth, i)
  {
    var body := Rewritten(lines, auth);
    RewrittenAt(lines, auth, i);
    RewrittenAt(StripAll(body + extra), auth, i);
    RewrittenShapes(lines, auth);
    TagAfterReading(lines, body, extra, i);
    SecondEmission(InTag(lines[..i]), lines[i], auth);
  }

  lemma {:induction false} SecondPassBehind(lines: seq<string>, body: seq<string>, extra: seq<string>,
                                            auth: Option<string>, driver: Option<string>, k: nat)
    requires SameShapes(body, lines) && Directives(extra) && AllAddable(extra, auth, driver) && k < |extra|
    ensures Rewritten(StripAll(body + extra), auth)[|lines| + k] == extra[k]
       <==> !LosesCr(InTag(lines), extra[k], auth)
  {
    assert (body + extra)[|lines| + k] == extra[k];
    RewrittenAt(StripAll(body + extra), auth, |lines| + k);
    TagBehind(lines, body, extra, k);
    AddedSecondEmission(InTag(lines), extra[k], auth, driver);
  }

  lemma Differ(a: seq<string>, b: seq<string>) returns (i: nat)
    requires |a| == |b| && a != b
    ensures i < |a| && a[i] != b[i]
  {
    i :| 0 <= i < |a| && a[i] != b[i];
  }

  lemma OnceBehind(lines: seq<string>, extra: seq<string>, auth: Option<string>, k: nat)
    requires k < |extra|
    ensures Once(lines, extra, auth)[|lines| + k] == extra[k]
  {
  }

  lemma {:induction false} BehindIff(lines: seq<string>, extra: seq<string>,
                                     auth: Option<string>, driver: Option<string>, k: nat)
    requires Directives(extra) && AllAddable(extra, auth, driver) && k < |extra|
    ensures Twice(lines, extra, auth)[|lines| + k] == extra[k] <==> !LosesCr(InTag(lines), extra[k], auth)
  {
    RewrittenShapes(lines, auth);
    SecondPassBehind(lines, Rewritten(lines, auth), extra, auth, driver, k);
  }

  lemma {:induction false} LossAhead(lines: seq<string>, extra: seq<string>, auth: Option<string>, i: nat)
    requires i < |lines| && Twice(lines, extra, auth)[i] != Once(lines, extra, auth)[i]
    ensures CopiesCr(lines, auth)
  {
    SecondPassAt(lines, extra, auth, i);
  }

  lemma {:induction false} LossBehind(lines: seq<string>, extra: seq<string>,
                                      auth: Option<string>, driver: Option<string>, k: nat)
    requires Directives(extra) && AllAddable(extra, auth, driver) && k < |extra|
    requires Twice(lines, extra, auth)[|lines| + k] != Once(lines, extra, auth)[|lines| + k]
    ensures AddsCr(lines, extra, auth)
  {
    OnceBehind(lines, extra, auth, k);
    BehindIff(lines, extra, auth, driver, k);
  }

  lemma {:induction false} LossHasCause(lines: seq<string>, extra: seq<string>,
                                        auth: Option<string>, driver: Option<string>)
    requires Directives(extra) && AllAddable(extra, auth, driver)
    requires Twice(lines, extra, auth) != Once(lines, extra, auth)
    ensures CopiesCr(lines, auth) || AddsCr(lines, extra, auth)
  {
    var i := Differ(Twice(lines, extra, auth), Once(lines, extra, auth));
    if i < |lines| {
      LossAhead(lines, extra, auth, i);
    } else {
      LossBehind(lines, extra, auth, driver, i - |lines|);
    }
  }

  lemma {:induction false} CopyIsLost(lines: seq<string>, extra: seq<string>, auth: Option<string>)
    requires CopiesCr(lines, auth)
    ensures Twice(lines, extra, auth) != Once(lines, extra, auth)
  {
    var i :| 0 <= i < |lines| && LosesCrAt(lines, auth, i);
    SecondPassAt(lines, extra, auth, i);
  }

  lemma {:induction false} AdditionIsLost(lines: seq<string>, extra: seq<string>,
                                          auth: Option<string>, driver: Option<string>)
    requires Directives(extra) && AllAddable(extra, auth, driver) && AddsCr(lines, extra, auth)
    ensures Twice(lines, extra, auth) != Once(lines, extra, auth)
  {
    var k :| 0 <= k < |extra| && LosesCr(InTag(lines), extra[k], auth);
    OnceBehind(lines, extra, auth, k);
    BehindIff(lines, extra, auth, driver, k);
  }

  /** The second pass copies everything exactly when no copied line ends in a carriage return. */
  lemma {:induction false} SecondPassCopies(lines: seq<string>, extra: seq<string>,
                                            auth: Option<string>, driver: Option<string>)
    requires Directives(extra) && AllAddable(extra, auth, driver)
    ensures Twice(lines, extra, auth) == Once(lines, extra, auth)
       <==> !CopiesCr(lines, auth) && !AddsCr(lines, extra, auth)
  {
    if CopiesCr(lines, auth) {
      CopyIsLost(lines, extra, auth);
    } else if AddsCr(lines, extra, auth) {
      AdditionIsLost(lines, extra, auth, driver);
    } else if Twice(lines, extra, auth) != Once(lines, extra, auth) {
      LossHasCause(lines, extra, auth, driver);
    }
  }

  // ---- what the second pass adds -------------------------------------------

  lemma SawOnce(lines: seq<string>, auth: Option<string>, driver: Option<string>, key: string)
    ensures Saw(Rewritten(lines, auth) + Extra(lines, auth, driver), key)
       <==> Saw(lines, key) || (!InTag(lines) && Names(Extra(lines, auth, driver), key))
  {
    RewrittenShapes(lines, auth);
    ExtraDirectives(lines, auth, driver);
    ShapesDecideSaw(Rewritten(lines, auth), lines, key);
    ShapesDecideTag(Rewritten(lines, auth), lines);
    DirectivesSeen(Rewritten(lines, auth), Extra(lines, auth, driver), key);
  }

  lemma {:induction false} MissingIsNamed(lines: seq<string>, auth: Option<string>, driver: Option<string>)
    ensures Saw(lines, "dev") || Names(Extra(lines, auth, driver), "dev")
    ensures Saw(lines, "redirect-gateway") || Names(Extra(lines, auth, driver), "redirect-gateway")
    ensures auth.Some? ==> Saw(lines, "auth-user-pass") || Names(Extra(lines, auth, driver), "auth-user-pass")
    ensures driver.Some? ==> Saw(lines, "windows-driver") || Names(Extra(lines, auth, driver), "windows-driver")
  {
    DevLineIsAdded(lines, auth, driver);
    MissingIsAdded(lines, auth, driver);
    if !Saw(lines, "dev") {
      DevLineShape();
      ExtraNames(lines, auth, driver, DEV_LINE, "dev");
    }
    if !Saw(lines, "redirect-gateway") {
      RedirectLineShape();
      ExtraNames(lines, auth, driver, REDIRECT_LINE, "redirect-gateway");
    }
    if auth.Some? && !Saw(lines, "auth-user-pass") {
      AuthLineShape(auth.value);
      ExtraNames(lines, auth, driver, AuthLine(auth.value), "auth-user-pass");
    }
    if driver.Some? && !Saw(lines, "windows-driver") {
      DriverLineShape(driver.value);
      ExtraNames(lines, auth, driver, DriverLine(driver.value), "windows-driver");
    }
  }

  /** The second pass adds nothing when tags are closed, and everything again when not. */
  lemma {:induction false} SecondPassAdds(lines: seq<string>, auth: Option<string>, driver: Option<string>)
    ensures Appended(Rewritten(lines, auth) + Extra(lines, auth, driver), auth, driver)
         == if InTag(lines) then Appended(lines, auth, driver) else []
  {
    SawOnce(lines, auth, driver, "dev");
    SawOnce(lines, auth, driver, "redirect-gateway");
    SawOnce(lines, auth, driver, "auth-user-pass");
    SawOnce(lines, auth, driver, "windows-driver");
    MissingIsNamed(lines, auth, driver);
    var once := Rewritten(lines, auth) + Extra(lines, auth, driver);
    if !InTag(lines) {
      AllSeen(once, auth, driver);
    }
  }

  /** The profile has every directive the rewriter would add. */
  predicate NothingMissing(lines: seq<string>, auth: Option<string>, driver: Option<string>) {
    && Saw(lines, "dev") && Saw(lines, "redirect-gateway")
    && (auth.Some? ==> Saw(lines, "auth-user-pass"))
    && (driver.Some? ==> Saw(lines, "windows-driver"))
  }

  lemma AllSeen(lines: seq<string>, auth: Option<string>, driver: Option<string>)
    ensures Appended(lines, auth, driver) == [] <==> NothingMissing(lines, auth, driver)
  {
  }

  /** Reading the written text back changes no directive. */
  lemma {:induction false} ReadBackAppends(once: seq<string>, auth: Option<string>, driver: Option<string>)
    ensures Appended(StripAll(once), auth, driver) == Appended(once, auth, driver)
  {
    StrippedShapes(once);
    ShapesDecideSaw(StripAll(once), once, "dev");
    ShapesDecideSaw(StripAll(once), once, "windows-driver");
    ShapesDecideSaw(StripAll(once), once, "redirect-gateway");
    ShapesDecideSaw(StripAll(once), once, "auth-user-pass");
  }

  lemma Marked(lines: seq<string>, mark: string, line: string)
    requires Contains(Lower(line), mark)
    ensures AnyLineContains(WithLine(lines, mark, line), mark)
  {
    if !AnyLineContains(lines, mark) {
      assert Contains(Lower((lines + [line])[|lines|]), mark);
    }
  }

  lemma StillMarked(lines: seq<string>, more: seq<string>, mark: string)
    requires AnyLineContains(lines, mark)
    ensures AnyLineContains(lines + more, mark)
  {
    var i :| 0 <= i < |lines| && Contains(Lower(lines[i]), mark);
    assert (lines + more)[i] == lines[i];
  }

  lemma MarksInLines()
    ensures Contains(Lower(NOCACHE_LINE), "auth-nocache")
    ensures Contains(Lower(SCRIPT_LINE), "script-security")
  {
    assert OccursAt(Lower(NOCACHE_LINE), "auth-nocache", 0);
    assert OccursAt(Lower(SCRIPT_LINE), "script-security", 0);
  }

  lemma HardenedTwice(lines: seq<string>)
    ensures Hardened(Hardened(lines)) == Hardened(lines)
  {
    MarksInLines();
    var first := WithLine(lines, "auth-nocache", NOCACHE_LINE);
    Marked(lines, "auth-nocache", NOCACHE_LINE);
    Marked(first, "script-security", SCRIPT_LINE);
    StillMarked(first, [SCRIPT_LINE], "auth-nocache");
  }

  lemma HardenedKeeps(lines: seq<string>)
    requires |Hardened(lines)| == |lines|
    ensures Hardened(lines) == lines
  {
  }

  lemma HardenedGrows(lines: seq<string>)
    ensures |Hardened(lines)| >= |lines|
  {
  }

  /** A pass over lines changes nothing exactly when it copies them all and adds no directive to hardened ones. */
  lemma {:induction false} PassIsIdle(read: seq<string>, once: seq<string>,
                                      auth: Option<string>, driver: Option<string>)
    requires |read| == |once| && Hardened(once) == once
    ensures Prepared(read, auth, driver) == once
       <==> Rewritten(read, auth) == once && Appended(read, auth, driver) == []
  {
    var own, added := Rewritten(read, auth), Appended(read, auth, driver);
    if own == once && added == [] {
      assert own + added == once;
    }
    if Prepared(read, auth, driver) == once {
      HardenedGrows(own + added);
      assert added == [];
      assert own + added == own;
      HardenedKeeps(own);
    }
  }

  lemma {:induction false} SecondPassOnLines(lines: seq<string>, auth: Option<string>, driver: Option<string>)
    ensures
      var once := Prepared(lines, auth, driver);
      Prepared(StripAll(once), auth, driver) == once
      <==> && !CopiesCr(lines, auth) && !AddsCr(lines, Extra(lines, auth, driver), auth)
           && (!InTag(lines) || NothingMissing(lines, auth, driver))
  {
    var once := Prepared(lines, auth, driver);
    HardenedTwice(Rewritten(lines, auth) + Appended(lines, auth, driver));
    PassIsIdle(StripAll(once), once, auth, driver);
    ExtraDirectives(lines, auth, driver);
    ExtraAddable(lines, auth, driver);
    SecondPassCopies(lines, Extra(lines, auth, driver), auth, driver);
    ReadBackAppends(once, auth, driver);
    PreparedSplits(lines, auth, driver);
    SecondPassAdds(lines, auth, driver);
    AllSeen(lines, auth, driver);
  }

  // ---- the second pass over the text ---------------------------------------

  /** The first pass adds a line for a driver whose name ends in a carriage return. */
  predicate AddsDriverCr(lines: seq<string>, driver: Option<string>) {
    driver.Some? && EndsCr(driver.value) && !Saw(lines, "windows-driver")
  }

  lemma {:induction false} OnlyDriverLosesCr(lines: seq<string>, auth: Option<string>, driver: Option<string>,
                                             line: string)
    requires line in Extra(lines, auth, driver) && EndsCr(line) && !Overwrites(InTag(lines), line, auth)
    requires !InTag(lines) || NothingMissing(lines, auth, driver)
    ensures AddsDriverCr(lines, driver)
  {
    AddedWhy(lines, auth, driver, line);
    AddedLine(lines, auth, driver, line);
    AddedEnd(line, auth, driver);
    if auth.Some? { GivenLinesStay(InTag(lines), auth.value, ""); }
  }

  lemma {:induction false} AddsCrIff(lines: seq<string>, auth: Option<string>, driver: Option<string>)
    requires !InTag(lines) || NothingMissing(lines, auth, driver)
    ensures AddsCr(lines, Extra(lines, auth, driver), auth) <==> AddsDriverCr(lines, driver)
  {
    var extra := Extra(lines, auth, driver);
    if AddsCr(lines, extra, auth) {
      var i :| 0 <= i < |extra| && LosesCr(InTag(lines), extra[i], auth);
      OnlyDriverLosesCr(lines, auth, driver, extra[i]);
    }
    if AddsDriverCr(lines, driver) {
      var line := DriverLine(driver.value);
      MissingIsAdded(lines, auth, driver);
      var i :| 0 <= i < |extra| && extra[i] == line;
      assert Last(line) == Last(driver.value);
      GivenLinesStay(InTag(lines), "", driver.value);
      assert EndsCr(extra[i]);
    }
  }

  /**
    Rewriting twice with the same credentials file and driver changes nothing
    more, exactly when no line that is copied or added ends in a carriage
    return, and either every tag is closed at the end of the profile or it
    lacked no directive.
   */
  lemma {:induction false} RewritingTwice(text: string, auth: Option<string>, driver: Option<string>)
    requires OneLiners(auth, driver)
    ensures
      var once := Prepare(text, auth, driver);
      var lines := Lines(text);
      Prepare(once, auth, driver) == once
      <==> && !CopiesCr(lines, auth) && !AddsDriverCr(lines, driver)
           && (!InTag(lines) || NothingMissing(lines, auth, driver))
  {
    var lines := Lines(text);
    var once := Prepared(lines, auth, driver);
    PreparedSingle(text, auth, driver);
    LinesUnlines(once);
    PreparedSingle(Prepare(text, auth, driver), auth, driver);
    UnlinesInjective(Prepared(StripAll(once), auth, driver), once);
    SecondPassOnLines(lines, auth, driver);
    if !InTag(lines) || NothingMissing(lines, auth, driver) {
      AddsCrIff(lines, auth, driver);
    }
  }

  // ---- profiles that change again ------------------------------------------

  /** Some profile lines, written out, are not settled by one pass. */
  ghost predicate ChangesAgain(lines: seq<string>) {
    Prepare(Prepare(Unlines(lines), None, None), None, None) != Prepare(Unlines(lines), None, None)
  }

  lemma {:induction false} OpenTagChangesAgain(tag: string)
    requires ShapeOf(tag) == Opening && SingleLine(tag) && !EndsCr(tag)
    ensures ChangesAgain([tag])
  {
    LinesUnlines([tag]);
    assert Lines(Unlines([tag])) == [tag];
    assert Front([tag]) == [] && InTag([tag]);
    assert !Saw([tag], "dev");
    RewritingTwice(Unlines([tag]), None, None);
  }

  /** A profile that ends inside a tag gets its directives a second time. */
  lemma {:induction false} OpenTagGrows()
    ensures ChangesAgain(["<ca>"])
  {
    TrimTight("<ca>");
    OpenTagChangesAgain("<ca>");
  }

  lemma {:induction false} CrChangesAgain(line: string, key: string)
    requires ShapeOf(line) == Directive(key) && !Rewritable(key) && SingleLine(line)
    ensures ChangesAgain([line + "\r" + "\r"])
  {
    var raw := line + "\r";
    assert StripCr(raw) == line && StripCr(raw + "\r") == raw;
    LinesUnlines([raw + "\r"]);
    assert Lines(Unlines([raw + "\r"])) == [raw];
    StrippedShape(raw);
    OtherIsCopied(InTag([raw][..0]), [raw][0], key, None);
    assert LosesCrAt([raw], None, 0) && CopiesCr([raw], None);
    RewritingTwice(Unlines([raw + "\r"]), None, None);
  }

  lemma NobindWord()
    ensures PlainWord("nobind") && SingleLine("nobind") && !Rewritable("nobind")
  {
  }

  /** A second carriage return at the end of a line is lost one pass later. */
  lemma {:induction false} CarriageReturnIsLost()
    ensures ChangesAgain(["nobind" + "\r" + "\r"])
  {
    NobindWord();
    LoneWord("nobind");
    CrChangesAgain("nobind", "nobind");
  }

  /** So is the one at the end of a driver's name. */
  lemma {:induction false} DriverReturnIsLost(driver: string)
    requires EndsCr(driver) && SingleLine(driver)
    ensures
      var once := Prepare("", None, Some(driver));
      Prepare(once, None, Some(driver)) != once
  {
    assert Lines("") == [];
    assert !Saw([], "windows-driver");
    RewritingTwice("", None, Some(driver));
  }
}
