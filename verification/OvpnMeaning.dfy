/**
  The runtime profile means what the imported one meant: the parser reads the
  same fields from both, except for the device, which becomes "tun".
 */
module OvpnMeaning {
  import opened Sequences
  import opened Text
  import opened Wrappers
  import opened OvpnProfile
  import opened OvpnShapes

  ghost predicate UpToDev(a: ParsedOvpn, b: ParsedOvpn) {
    a == b.(dev := a.dev)
  }

  ghost predicate Tracks(a: ReadState, b: ReadState) {
    a.inTag == b.inTag && UpToDev(a.profile, b.profile)
  }

  lemma DirectiveUpToDev(a: ParsedOvpn, b: ParsedOvpn, words: seq<string>)
    requires UpToDev(a, b)
    ensures UpToDev(ReadDirective(a, words), ReadDirective(b, words))
  {
  }

  lemma ReadLineUpToDev(a: ReadState, b: ReadState, raw: string)
    requires Tracks(a, b)
    ensures Tracks(ReadLine(a, raw), ReadLine(b, raw))
  {
    DirectiveUpToDev(a.profile, b.profile, Words(Trim(raw)));
  }

  /** Directives of which the parser keeps nothing but the device. */
  ghost predicate Inert(key: string) {
    key in ["auth-user-pass", "windows-driver", "redirect-gateway", "auth-nocache", "script-security"]
  }

  lemma InertLine(s: ReadState, line: string, key: string)
    requires ShapeOf(line) == Directive(key) && Inert(key)
    ensures ReadLine(s, line) == s
  {
    InertKey(s.profile, Words(Trim(line)));
  }

  lemma InertKey(p: ParsedOvpn, words: seq<string>)
    requires Inert(Key(words))
    ensures ReadDirective(p, words) == p
  {
  }

  lemma DevLineRead(s: ReadState, line: string)
    requires ShapeOf(line) == Directive("dev")
    ensures Tracks(ReadLine(s, line), s)
    ensures ReadLine(s, line).profile.dev ==
            if s.inTag.None? && |Words(Trim(line))| > 1 then Words(Trim(line))[1] else s.profile.dev
  {
  }

  lemma {:induction false} EmittedRead(a: ReadState, b: ReadState, inTag: bool, raw: string, auth: Option<string>)
    requires Tracks(a, b)
    ensures Tracks(ReadLine(a, StripCr(Emitted(inTag, raw, auth))), ReadLine(b, raw))
  {
    var e := Emitted(inTag, raw, auth);
    TrimStripped(e);
    EmittedCases(inTag, raw, auth);
    EmittedShape(inTag, raw, auth);
    if e == raw {
      ReadLineUpToDev(a, b, raw);
    } else if ShapeOf(raw) == Directive("dev") {
      DevLineRead(a, e);
      DevLineRead(b, raw);
    } else {
      InertLine(a, e, ShapeOf(raw).key);
      InertLine(b, raw, ShapeOf(raw).key);
    }
  }

  lemma StripAllSnoc(lines: seq<string>)
    requires lines != []
    ensures StripAll(lines) != []
    ensures Front(StripAll(lines)) == StripAll(Front(lines))
    ensures Last(StripAll(lines)) == StripCr(Last(lines))
  {
  }

  lemma {:induction false} BodyRead(lines: seq<string>, auth: Option<string>)
    ensures Tracks(Read(StripAll(Rewritten(lines, auth))), Read(lines))
  {
    if lines == [] {
    } else {
      var body := Rewritten(lines, auth);
      var line := Emitted(InTag(Front(lines)), Last(lines), auth);
      BodyRead(Front(lines), auth);
      Snoc(Rewritten(Front(lines), auth), line);
      StripAllSnoc(body);
      EmittedRead(Read(StripAll(Front(body))), Read(Front(lines)), InTag(Front(lines)), Last(lines), auth);
    }
  }

  /** The profile's host is the first of its remotes, and no remote is nameless. */
  lemma {:induction false} FirstRemoteWins(lines: seq<string>)
    ensures
      var p := Read(lines).profile;
      && p.remoteHost == (if p.remotes == [] then "" else p.remotes[0].0)
      && forall i :: 0 <= i < |p.remotes| ==> p.remotes[i].0 != ""
  {
    if lines == [] {
    } else {
      FirstRemoteWins(Front(lines));
      var p, words := Read(Front(lines)).profile, Words(Trim(Last(lines)));
      RemoteKept(p, words);
    }
  }

  lemma RemoteKept(p: ParsedOvpn, words: seq<string>)
    requires p.remoteHost == (if p.remotes == [] then "" else p.remotes[0].0)
    requires forall i :: 0 <= i < |p.remotes| ==> p.remotes[i].0 != ""
    ensures
      var q := ReadDirective(p, words);
      && q.remoteHost == (if q.remotes == [] then "" else q.remotes[0].0)
      && forall i :: 0 <= i < |q.remotes| ==> q.remotes[i].0 != ""
  {
  }

  // ---- the added lines -----------------------------------------------------

  lemma {:induction false} AddedLineRead(s: ReadState, line: string, auth: Option<string>, driver: Option<string>)
    requires Addable(line, auth, driver)
    ensures Tracks(ReadLine(s, StripCr(line)), s)
    ensures ReadLine(s, StripCr(line)).profile.dev ==
            if line == DEV_LINE && s.inTag.None? then "tun" else s.profile.dev
  {
    TrimStripped(line);
    StrippedShape(line);
    if line == DEV_LINE {
      DevLineShape();
      DevLineRead(s, StripCr(line));
    } else {
      var key := AddedKey(line, auth, driver);
      InertLine(s, StripCr(line), key);
    }
  }

  lemma AddedKey(line: string, auth: Option<string>, driver: Option<string>) returns (key: string)
    requires Addable(line, auth, driver)
    ensures ShapeOf(line) == Directive(key)
    ensures line == DEV_LINE || Inert(key)
  {
    if line == DEV_LINE { DevLineShape(); key := "dev"; }
    else if line == REDIRECT_LINE { RedirectLineShape(); key := "redirect-gateway"; }
    else if line == NOCACHE_LINE { NocacheLineShape(); key := "auth-nocache"; }
    else if line == SCRIPT_LINE { ScriptLineShape(); key := "script-security"; }
    else if driver.Some? && line == DriverLine(driver.value) { DriverLineShape(driver.value); key := "windows-driver"; }
    else { AuthLineShape(auth.value); key := "auth-user-pass"; }
  }

  ghost predicate AllAddable(extra: seq<string>, auth: Option<string>, driver: Option<string>) {
    forall i {:trigger Addable(extra[i], auth, driver)} :: 0 <= i < |extra| ==> Addable(extra[i], auth, driver)
  }

  lemma {:induction false} ExtraRead(start: seq<string>, extra: seq<string>,
                                     auth: Option<string>, driver: Option<string>)
    requires AllAddable(extra, auth, driver)
    ensures Tracks(Read(start + StripAll(extra)), Read(start))
    ensures Read(start + StripAll(extra)).profile.dev ==
            if DEV_LINE in extra && Read(start).inTag.None? then "tun" else Read(start).profile.dev
  {
    if extra == [] {
      assert start + StripAll(extra) == start;
    } else {
      var init, line := Front(extra), Last(extra);
      var all := start + StripAll(extra);
      StripAllSnoc(extra);
      assert Front(all) == start + StripAll(init) && Last(all) == StripCr(line);
      ExtraRead(start, init, auth, driver);
      AddedLineRead(Read(Front(all)), line, auth, driver);
      InSnoc(extra, DEV_LINE);
    }
  }

  lemma InSnoc(s: seq<string>, x: string)
    requires s != []
    ensures x in s <==> x in Front(s) || x == Last(s)
  {
    assert s == Front(s) + [Last(s)];
  }

  lemma ExtraAddable(lines: seq<string>, auth: Option<string>, driver: Option<string>)
    ensures AllAddable(Extra(lines, auth, driver), auth, driver)
  {
    var extra := Extra(lines, auth, driver);
    forall i | 0 <= i < |extra| ensures Addable(extra[i], auth, driver) {
      AddedLine(lines, auth, driver, extra[i]);
    }
  }

  // ---- the written text read back ------------------------------------------

  /** No part the caller supplies breaks a line. */
  ghost predicate OneLiners(auth: Option<string>, driver: Option<string>) {
    (auth.Some? ==> SingleLine(auth.value)) && (driver.Some? ==> SingleLine(driver.value))
  }

  lemma {:induction false} TakeWordNoSpace(s: string)
    ensures NoSpace(TakeWord(s))
  {
    if s != "" && !IsSpace(s[0]) {
      TakeWordNoSpace(s[1..]);
    }
  }

  lemma {:induction false} WordsHaveNoSpace(s: string, i: nat)
    requires i < |Words(s)|
    ensures NoSpace(Words(s)[i])
    decreases |s|
  {
    var t := TrimStart(s);
    TakeWordNoSpace(t);
    if i > 0 {
      WordsHaveNoSpace(t[|TakeWord(t)|..], i - 1);
    }
  }

  lemma AuthLineSingle(path: string)
    requires SingleLine(path)
    ensures SingleLine(AuthLine(path))
  {
    var slashes := Slashes(path);
    assert forall i :: 0 <= i < |path| ==> slashes[i] != '\n';
  }

  lemma {:induction false} EmittedSingle(inTag: bool, raw: string, auth: Option<string>)
    requires SingleLine(raw) && (auth.Some? ==> SingleLine(auth.value))
    ensures SingleLine(Emitted(inTag, raw, auth))
  {
    var words := Words(Trim(raw));
    if auth.Some? { AuthLineSingle(auth.value); }
    if |words| > 1 {
      WordsHaveNoSpace(Trim(raw), 1);
      assert SingleLine(words[1]);
      AuthLineSingle(words[1]);
    }
  }

  lemma AddedSingle(line: string, auth: Option<string>, driver: Option<string>)
    requires Addable(line, auth, driver) && OneLiners(auth, driver)
    ensures SingleLine(line)
  {
    if auth.Some? { AuthLineSingle(auth.value); }
  }

  lemma {:induction false} PreparedSingle(text: string, auth: Option<string>, driver: Option<string>)
    requires OneLiners(auth, driver)
    ensures SingleLines(Prepared(Lines(text), auth, driver))
  {
    var lines := Lines(text);
    var body, extra := Rewritten(lines, auth), Extra(lines, auth, driver);
    LinesAreSingle(text);
    PreparedSplits(lines, auth, driver);
    ExtraAddable(lines, auth, driver);
    forall i | 0 <= i < |body| ensures SingleLine(body[i]) {
      RewrittenAt(lines, auth, i);
      EmittedSingle(InTag(lines[..i]), lines[i], auth);
    }
    forall i | 0 <= i < |extra| ensures SingleLine(extra[i]) {
      AddedSingle(extra[i], auth, driver);
    }
    SinglesJoin(body, extra);
  }

  lemma SinglesJoin(a: seq<string>, b: seq<string>)
    requires SingleLines(a) && SingleLines(b)
    ensures SingleLines(a + b)
  {
  }

  /** The runtime profile, read line by line. */
  lemma PreparedLines(text: string, auth: Option<string>, driver: Option<string>)
    requires OneLiners(auth, driver)
    ensures Lines(Prepare(text, auth, driver))
         == StripAll(Rewritten(Lines(text), auth)) + StripAll(Extra(Lines(text), auth, driver))
  {
    PreparedSingle(text, auth, driver);
    LinesUnlines(Prepared(Lines(text), auth, driver));
    PreparedSplits(Lines(text), auth, driver);
    StripAllJoins(Rewritten(Lines(text), auth), Extra(Lines(text), auth, driver));
  }

  /**
    Whatever the profile, well formed or not, rewriting changes no field the
    parser reads other than the device.
   */
  lemma RewritingPreservesMeaning(text: string, auth: Option<string>, driver: Option<string>)
    requires OneLiners(auth, driver)
    ensures
      var after := Parse(Prepare(text, auth, driver));
      after == Parse(text).(dev := after.dev)
  {
    var lines := Lines(text);
    PreparedLines(text, auth, driver);
    BodyRead(lines, auth);
    ExtraAddable(lines, auth, driver);
    ExtraRead(StripAll(Rewritten(lines, auth)), Extra(lines, auth, driver), auth, driver);
  }

  // ---- the device ----------------------------------------------------------

  /** The parser will take its device from this line of the runtime profile. */
  ghost predicate HeedsDev(before: seq<string>, line: string) {
    && Read(before).inTag.None?
    && ShapeOf(line) == Directive("dev")
    && (InTag(before) ==> |Words(Trim(line))| > 1)
  }

  /**
    The last such line stands where only the rewriter believes itself inside a
    tag, and names another device than "tun".
   */
  ghost predicate ForeignDev(lines: seq<string>) {
    lines != [] &&
    if HeedsDev(Front(lines), Last(lines)) then
      InTag(Front(lines)) && Words(Trim(Last(lines)))[1] != "tun"
    else
      ForeignDev(Front(lines))
  }

  lemma OtherLineKeepsDev(s: ReadState, line: string)
    requires ShapeOf(line) != Directive("dev")
    ensures ReadLine(s, line).profile.dev == s.profile.dev
  {
    if ShapeOf(line).Directive? {
      OtherKeyKeepsDev(s.profile, Words(Trim(line)));
    }
  }

  lemma OtherKeyKeepsDev(p: ParsedOvpn, words: seq<string>)
    requires Key(words) != "dev"
    ensures ReadDirective(p, words).dev == p.dev
  {
  }

  lemma {:induction false} BodyDev(lines: seq<string>, auth: Option<string>)
    ensures Read(StripAll(Rewritten(lines, auth))).profile.dev != "tun" <==> ForeignDev(lines)
  {
    if lines == [] {
    } else {
      var before, raw := Front(lines), Last(lines);
      var e := Emitted(InTag(before), raw, auth);
      BodyDev(before, auth);
      BodyRead(before, auth);
      Snoc(Rewritten(before, auth), e);
      StripAllSnoc(Rewritten(lines, auth));
      var s := Read(StripAll(Rewritten(before, auth)));
      TrimStripped(e);
      EmittedShape(InTag(before), raw, auth);
      StrippedShape(e);
      if ShapeOf(raw) == Directive("dev") {
        DevLineRead(s, StripCr(e));
        EmittedDev(InTag(before), raw, auth);
      } else {
        OtherLineKeepsDev(s, StripCr(e));
      }
    }
  }

  lemma {:induction false} EmittedDev(inTag: bool, raw: string, auth: Option<string>)
    requires ShapeOf(raw) == Directive("dev")
    ensures inTag ==> Emitted(inTag, raw, auth) == raw
    ensures !inTag ==> Words(Trim(Emitted(inTag, raw, auth))) == ["dev", "tun"]
  {
    DevLineShape();
  }

  ghost predicate NoneDev(lines: seq<string>) {
    forall i :: 0 <= i < |lines| ==> lines[i] != DEV_LINE
  }

  lemma OnlyOneDev(auth: Option<string>, driver: Option<string>, sawDriver: bool, sawRedirect: bool, sawAuth: bool)
    ensures NoneDev(IfGiven(driver, sawDriver, d => DriverLine(d)))
    ensures NoneDev(Lacking(sawRedirect, REDIRECT_LINE))
    ensures NoneDev(IfGiven(auth, sawAuth, path => AuthLine(path)))
  {
    assert DEV_LINE[0] == 'd' && REDIRECT_LINE[0] == 'r';
    if driver.Some? { assert DriverLine(driver.value)[0] == 'w'; }
    if auth.Some? { assert AuthLine(auth.value)[0] == 'a'; }
  }

  lemma NoneDevJoins(a: seq<string>, b: seq<string>, c: seq<string>, first: seq<string>, second: seq<string>)
    requires NoneDev(a) && NoneDev(b) && NoneDev(c) && NoneDev(first) && NoneDev(second)
    ensures NoneDev(a + b + c + first + second)
  {
  }

  lemma DevLineIsAdded(lines: seq<string>, auth: Option<string>, driver: Option<string>)
    ensures DEV_LINE in Extra(lines, auth, driver) <==> !Saw(lines, "dev")
  {
    var rest := AfterDev(lines, auth, driver);
    FirstOnly(Extra(lines, auth, driver), Saw(lines, "dev"), rest);
  }

  lemma FirstOnly(all: seq<string>, present: bool, rest: seq<string>)
    requires all == Lacking(present, DEV_LINE) + rest && NoneDev(rest)
    ensures DEV_LINE in all <==> !present
  {
    if !present { assert all[0] == DEV_LINE; }
  }

  lemma AfterDev(lines: seq<string>, auth: Option<string>, driver: Option<string>) returns (rest: seq<string>)
    ensures Extra(lines, auth, driver) == Lacking(Saw(lines, "dev"), DEV_LINE) + rest
    ensures NoneDev(rest)
  {
    var sawDriver, sawRedirect, sawAuth :=
      Saw(lines, "windows-driver"), Saw(lines, "redirect-gateway"), Saw(lines, "auth-user-pass");
    var a := IfGiven(driver, sawDriver, d => DriverLine(d));
    var b := Lacking(sawRedirect, REDIRECT_LINE);
    var c := IfGiven(auth, sawAuth, path => AuthLine(path));
    var first, second := Marks(lines, auth, driver);
    OnlyOneDev(auth, driver, sawDriver, sawRedirect, sawAuth);
    NoneDevJoins(a, b, c, first, second);
    rest := a + b + c + first + second;
    var dev := Lacking(Saw(lines, "dev"), DEV_LINE);
    Regroup(dev, a, b);
    Regroup(dev, a + b, c);
    Regroup(dev, a + b + c, first);
    Regroup(dev, a + b + c + first, second);
  }

  lemma Marks(lines: seq<string>, auth: Option<string>, driver: Option<string>)
    returns (first: seq<string>, second: seq<string>)
    ensures Extra(lines, auth, driver) == Appended(lines, auth, driver) + first + second
    ensures NoneDev(first) && NoneDev(second)
  {
    var body := Rewritten(lines, auth) + Appended(lines, auth, driver);
    first := Mark(body, "auth-nocache", NOCACHE_LINE);
    second := Mark(body + first, "script-security", SCRIPT_LINE);
    assert |DEV_LINE| == 7 && |NOCACHE_LINE| == 12 && |SCRIPT_LINE| == 17;
  }

  /** No added line comes to the rescue of a foreign device: one is not needed, or lands inside a tag. */
  ghost predicate KeepsForeignDev(lines: seq<string>) {
    ForeignDev(lines) && (Saw(lines, "dev") || Read(lines).inTag.Some?)
  }

  /**
    The device becomes "tun", except exactly when the parser's last device line
    is a foreign one that the rewriter passed over as tag content and no device
    line was added after it in the parser's sight.
   */
  lemma {:induction false} DeviceBecomesTun(text: string, auth: Option<string>, driver: Option<string>)
    requires OneLiners(auth, driver)
    ensures Parse(Prepare(text, auth, driver)).dev == "tun" <==> !KeepsForeignDev(Lines(text))
  {
    var lines := Lines(text);
    PreparedLines(text, auth, driver);
    BodyRead(lines, auth);
    BodyDev(lines, auth);
    ExtraAddable(lines, auth, driver);
    ExtraRead(StripAll(Rewritten(lines, auth)), Extra(lines, auth, driver), auth, driver);
    DevLineIsAdded(lines, auth, driver);
  }

  /** Every line that opens with `<` is a complete tag. */
  ghost predicate WellTagged(lines: seq<string>) {
    forall i :: 0 <= i < |lines| ==> var t := Trim(lines[i]); IsTag(t) ==> Last(t) == '>'
  }

  /** On complete tags the two trackers agree after every line. */
  lemma {:induction false} TrackersAgree(lines: seq<string>)
    requires WellTagged(lines)
    ensures Read(lines).inTag.Some? <==> InTag(lines)
  {
    if lines == [] {
    } else {
      var before, t := Front(lines), Trim(Last(lines));
      TrackersAgree(before);
      assert IsTag(t) ==> Last(t) == '>' by { assert Last(lines) == lines[|lines| - 1]; }
      if IsTag(t) {
        assert t[1..] != "" && Last(t[1..]) == '>';
        assert Starts(Front(t[1..]), '/') <==> IsClosing(t);
      }
    }
  }

  lemma {:induction false} NoForeignDev(lines: seq<string>)
    requires WellTagged(lines)
    ensures !ForeignDev(lines)
  {
    if lines == [] {
    } else {
      assert WellTagged(Front(lines));
      TrackersAgree(Front(lines));
      NoForeignDev(Front(lines));
    }
  }

  /** The promise to users: on complete tags only the device changes, to "tun". */
  lemma RuntimeProfileMeansTheSame(text: string, auth: Option<string>, driver: Option<string>)
    requires OneLiners(auth, driver) && WellTagged(Lines(text))
    ensures Parse(Prepare(text, auth, driver)) == Parse(text).(dev := "tun")
  {
    RewritingPreservesMeaning(text, auth, driver);
    DeviceBecomesTun(text, auth, driver);
    NoForeignDev(Lines(text));
  }

  // ---- an incomplete tag ---------------------------------------------------

  /** A device line, an opening bracket that nothing closes, and another device. */
  lemma {:induction false} HalfTagHidesDev(dev: string, tag: string, other: string)
    requires ShapeOf(dev) == Directive("dev") && ShapeOf(other) == Directive("dev")
    requires IsTag(Trim(tag)) && !IsClosing(Trim(tag)) && Last(Trim(tag)) != '>'
    requires |Words(Trim(other))| > 1 && Words(Trim(other))[1] != "tun"
    ensures KeepsForeignDev([dev] + [tag] + [other])
  {
    var first, second, all := [dev], [dev] + [tag], [dev] + [tag] + [other];
    assert Front(first) == [] && !InTag([]) && Read([]).inTag.None?;
    assert !InTag(first) && Read(first).inTag.None?;
    Snoc(first, tag);
    assert InTag(second) && Read(second).inTag.None?;
    Snoc(second, other);
    assert all[0] == dev && all[..0] == [];
    assert Visible(all, 0, "dev");
  }

  const HALF_TAGGED: seq<string> := [DEV_LINE] + ["<x"] + ["dev tap"]

  lemma TapLine()
    ensures ShapeOf("dev tap") == Directive("dev") && Words(Trim("dev tap")) == ["dev", "tap"]
  {
    DevWords();
    WordLine("dev", "tap");
    TwoWords("dev", "tap");
    assert "dev" + " " + "tap" == "dev tap";
  }

  lemma {:induction false} HalfTaggedReadsBack()
    ensures Lines(Unlines(HALF_TAGGED)) == HALF_TAGGED
  {
    LinesUnlines(HALF_TAGGED);
    assert StripAll(HALF_TAGGED) == HALF_TAGGED;
  }

  lemma {:induction false} HalfTaggedHidesDev()
    ensures KeepsForeignDev(HALF_TAGGED)
  {
    DevLineShape();
    TapLine();
    TrimTight("<x");
    HalfTagHidesDev(DEV_LINE, "<x", "dev tap");
  }

  lemma {:induction false} ForeignDevStays(lines: seq<string>, auth: Option<string>, driver: Option<string>)
    requires OneLiners(auth, driver) && Lines(Unlines(lines)) == lines && KeepsForeignDev(lines)
    ensures Parse(Prepare(Unlines(lines), auth, driver)).dev != "tun"
  {
    DeviceBecomesTun(Unlines(lines), auth, driver);
  }

  /** Such a profile keeps its own device, although it says "dev tun" in the open as well. */
  lemma {:induction false} HalfTagKeepsDevice(auth: Option<string>, driver: Option<string>)
    requires OneLiners(auth, driver)
    ensures Parse(Prepare(Unlines(HALF_TAGGED), auth, driver)).dev != "tun"
  {
    HalfTaggedReadsBack();
    HalfTaggedHidesDev();
    ForeignDevStays(HALF_TAGGED, auth, driver);
  }
}
