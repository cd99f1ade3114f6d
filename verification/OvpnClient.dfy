/** The loops that read and rewrite a profile, proved against `OvpnProfile`. */
module OvpnClient {
  import opened Sequences
  import opened Text
  import opened Wrappers
  import opened OvpnProfile
  import opened OvpnReading
  import opened OvpnMeaning
  import opened OvpnWritten

  method ParseOvpn(content: string) returns (out: ParsedOvpn)
    ensures out == Parse(content)
    ensures ReadsAs(Lines(content), out)
  {
    ParseReadsLines(content);
    var lines := Lines(content);
    out := ParsedOvpn("", 1194, "udp", "tun", "", "", false, false, []);
    var inTag: Option<string> := None;
    for i := 0 to |lines|
      invariant ReadState(out, inTag) == Read(lines[..i])
    {
      TakeNext(lines, i);
      var line := Trim(lines[i]);
      if line == "" || Starts(line, '#') || Starts(line, ';') {
        continue;
      }
      if Starts(line, '<') {
        var tag := line[1..];
        if tag != "" && Last(tag) == '>' {
          var name := Front(tag);
          if !Starts(name, '/') {
            inTag := Some(Lower(name));
            if IsCertTag(Lower(name)) { out := out.(hasInlineCerts := true); }
            if IsTlsTag(Lower(name)) { out := out.(hasTlsAuth := true); }
          } else {
            inTag := None;
          }
        }
        continue;
      }
      if inTag.Some? {
        continue;
      }
      out := ReadDirective(out, Words(line));
    }
    assert lines[..|lines|] == lines;
  }

  method NeedsAuthUserPass(content: string) returns (needed: bool)
    ensures needed <==> NeedsAuth(content)
    ensures needed <==> exists i ::
              0 <= i < |Lines(content)| && Asks(Lines(content)[..i], Lines(content)[i], "auth-user-pass")
  {
    NeedsAuthIsAsked(content);
    var lines := Lines(content);
    var inTag := false;
    for i := 0 to |lines|
      invariant inTag == InTag(lines[..i])
      invariant !Saw(lines[..i], "auth-user-pass")
    {
      TakeNext(lines, i);
      SawNext(lines[..i], lines[i], "auth-user-pass");
      var line := Trim(lines[i]);
      if line == "" || Starts(line, '#') || Starts(line, ';') {
        continue;
      }
      if Starts(line, '<') {
        inTag := !IsClosing(line);
        continue;
      }
      if inTag {
        continue;
      }
      if Key(Words(line)) == "auth-user-pass" {
        SawMore(lines[..i + 1], lines, "auth-user-pass");
        return true;
      }
    }
    assert lines[..|lines|] == lines;
    return false;
  }

  method PrepareRuntimeProfile(content: string, auth: Option<string>, driver: Option<string>)
    returns (out: string)
    ensures out == Prepare(content, auth, driver)
    ensures OneLiners(auth, driver) ==> StandsFor(Lines(content), auth, Lines(out))
  {
    if OneLiners(auth, driver) { EveryLineStands(content, auth, driver); }
    var lines := Lines(content);
    var sawAuth, sawRedirect, sawWindowsDriver, sawDev;
    out, sawAuth, sawRedirect, sawWindowsDriver, sawDev := RewriteLines(lines, auth);
    ghost var body := Rewritten(lines, auth);
    out := AppendDirectives(body, out, auth, driver, sawDev, sawWindowsDriver, sawRedirect, sawAuth);
    out := AppendHardening(body + Appended(lines, auth, driver), out);
  }

  method AppendDirectives(ghost lines: seq<string>, body: string, auth: Option<string>, driver: Option<string>,
                          sawDev: bool, sawWindowsDriver: bool, sawRedirect: bool, sawAuth: bool)
    returns (out: string)
    requires body == Unlines(lines)
    ensures out == Unlines(lines + Added(auth, driver, sawDev, sawWindowsDriver, sawRedirect, sawAuth))
  {
    ghost var done := lines + Lacking(sawDev, DEV_LINE);
    out := PushMissing(lines, body, sawDev, DEV_LINE);
    if driver.Some? {
      out := PushMissing(done, out, sawWindowsDriver, DriverLine(driver.value));
    }
    done := done + IfGiven(driver, sawWindowsDriver, d => DriverLine(d));
    assert driver.None? ==> done == lines + Lacking(sawDev, DEV_LINE);
    out := PushMissing(done, out, sawRedirect, REDIRECT_LINE);
    done := done + Lacking(sawRedirect, REDIRECT_LINE);
    if auth.Some? {
      out := PushMissing(done, out, sawAuth, AuthLine(auth.value));
    } else {
      assert done + [] == done;
    }
    ghost var a, b := Lacking(sawDev, DEV_LINE), IfGiven(driver, sawWindowsDriver, d => DriverLine(d));
    ghost var c, d := Lacking(sawRedirect, REDIRECT_LINE), IfGiven(auth, sawAuth, path => AuthLine(path));
    Regroup(lines, a, b);
    Regroup(lines, a + b, c);
    Regroup(lines, a + b + c, d);
  }

  method PushMissing(ghost lines: seq<string>, body: string, present: bool, line: string) returns (out: string)
    requires body == Unlines(lines)
    ensures out == Unlines(lines + Lacking(present, line))
  {
    out := body;
    if !present {
      Snoc(lines, line);
      out := out + line + "\n";
    } else {
      assert lines + [] == lines;
    }
  }

  method RewriteLines(lines: seq<string>, auth: Option<string>)
    returns (out: string, sawAuth: bool, sawRedirect: bool, sawWindowsDriver: bool, sawDev: bool)
    ensures out == Unlines(Rewritten(lines, auth))
    ensures sawAuth == Saw(lines, "auth-user-pass") && sawRedirect == Saw(lines, "redirect-gateway")
    ensures sawWindowsDriver == Saw(lines, "windows-driver") && sawDev == Saw(lines, "dev")
  {
    out := "";
    var inTag := false;
    sawAuth, sawRedirect, sawWindowsDriver, sawDev := false, false, false, false;
    ghost var done: seq<string> := [];
    for i := 0 to |lines|
      invariant done == lines[..i]
      invariant Written(done, auth, inTag, out)
      invariant Noted(done, sawAuth, sawRedirect, sawWindowsDriver, sawDev)
    {
      var raw := lines[i];
      TakeNext(lines, i);
      WrittenNext(done, raw, auth, inTag, out);
      NotedNext(done, raw, sawAuth, sawRedirect, sawWindowsDriver, sawDev);
      var noted;
      inTag, out, noted := RewriteLine(raw, auth, inTag, out);
      sawAuth := sawAuth || noted == Some("auth-user-pass");
      sawDev := sawDev || noted == Some("dev");
      sawWindowsDriver := sawWindowsDriver || noted == Some("windows-driver");
      sawRedirect := sawRedirect || noted == Some("redirect-gateway");
      done := done + [raw];
    }
    assert done == lines;
  }

  /** One round of the loop: the tracker, the buffer, and the directive met if any. */
  method RewriteLine(raw: string, auth: Option<string>, inTag: bool, buffer: string)
    returns (nowInTag: bool, out: string, noted: Option<string>)
    ensures nowInTag == (ShapeOf(raw) == Opening || (ShapeOf(raw) != Closing && inTag))
    ensures out == buffer + Emitted(inTag, raw, auth) + "\n"
    ensures noted == if ShapeOf(raw).Directive? && !inTag then Some(ShapeOf(raw).key) else None
  {
    nowInTag, noted := inTag, None;
    var trimmed := Trim(raw);
    if Starts(trimmed, '<') {
      nowInTag := !IsClosing(trimmed);
      out := buffer + raw + "\n";
      return;
    }
    if inTag {
      out := buffer + raw + "\n";
      return;
    }
    if trimmed == "" || Starts(trimmed, '#') || Starts(trimmed, ';') {
      out := buffer + raw + "\n";
      return;
    }
    var key, text := RewriteDirective(raw, trimmed, auth);
    noted := Some(key);
    out := buffer + text + "\n";
  }

  /** The tag tracker and the output buffer after the lines. */
  ghost predicate Written(lines: seq<string>, auth: Option<string>, inTag: bool, out: string) {
    inTag == InTag(lines) && out == Unlines(Rewritten(lines, auth))
  }

  /** The four flags after the lines. */
  ghost predicate Noted(lines: seq<string>, sawAuth: bool, sawRedirect: bool, sawWindowsDriver: bool, sawDev: bool) {
    && sawAuth == Saw(lines, "auth-user-pass")
    && sawRedirect == Saw(lines, "redirect-gateway")
    && sawWindowsDriver == Saw(lines, "windows-driver")
    && sawDev == Saw(lines, "dev")
  }

  lemma WrittenNext(lines: seq<string>, raw: string, auth: Option<string>, inTag: bool, out: string)
    requires Written(lines, auth, inTag, out)
    ensures Written(lines + [raw], auth,
                    ShapeOf(raw) == Opening || (ShapeOf(raw) != Closing && inTag),
                    out + Emitted(inTag, raw, auth) + "\n")
  {
    RewrittenNext(lines, raw, auth);
    SawNext(lines, raw, "dev");
  }

  lemma {:induction false} NotedNext(lines: seq<string>, raw: string,
                  sawAuth: bool, sawRedirect: bool, sawWindowsDriver: bool, sawDev: bool)
    requires Noted(lines, sawAuth, sawRedirect, sawWindowsDriver, sawDev)
    ensures
      var shape, open := ShapeOf(raw), !InTag(lines);
      Noted(lines + [raw],
            sawAuth || (shape == Directive("auth-user-pass") && open),
            sawRedirect || (shape == Directive("redirect-gateway") && open),
            sawWindowsDriver || (shape == Directive("windows-driver") && open),
            sawDev || (shape == Directive("dev") && open))
  {
    SawNext(lines, raw, "auth-user-pass");
    SawNext(lines, raw, "redirect-gateway");
    SawNext(lines, raw, "windows-driver");
    SawNext(lines, raw, "dev");
  }

  /** The rewriter's dispatch on the directive's name. */
  method RewriteDirective(raw: string, trimmed: string, auth: Option<string>) returns (key: string, text: string)
    requires trimmed == Trim(raw) && !IsTag(trimmed) && !IsComment(trimmed)
    ensures ShapeOf(raw) == Directive(key)
    ensures text == Emitted(false, raw, auth)
  {
    var words := Words(trimmed);
    key := Key(words);
    text := raw;
    if key == "auth-user-pass" {
      if auth.Some? {
        text := AuthLine(auth.value);
      } else if |words| > 1 {
        text := AuthLine(words[1]);
      }
    } else if key == "dev" {
      text := DEV_LINE;
    } else if key == "redirect-gateway" {
      if !Contains(Lower(trimmed), "def1") {
        text := REDIRECT_LINE;
      }
    }
  }

  method AppendHardening(ghost lines: seq<string>, body: string) returns (out: string)
    requires body == Unlines(lines)
    ensures out == Unlines(Hardened(lines))
  {
    out := body;
    ghost var done := lines;
    UnlinesContains(done, "auth-nocache");
    if !Contains(Lower(out), "auth-nocache") {
      Snoc(done, NOCACHE_LINE);
      out, done := out + NOCACHE_LINE + "\n", done + [NOCACHE_LINE];
    }
    UnlinesContains(done, "script-security");
    if !Contains(Lower(out), "script-security") {
      Snoc(done, SCRIPT_LINE);
      out, done := out + SCRIPT_LINE + "\n", done + [SCRIPT_LINE];
    }
  }

  // ---- one more line, or several -------------------------------------------

  lemma SawNext(lines: seq<string>, raw: string, key: string)
    ensures Saw(lines + [raw], key) <==> Saw(lines, key) || (ShapeOf(raw) == Directive(key) && !InTag(lines))
    ensures InTag(lines + [raw]) ==
            (ShapeOf(raw) == Opening || (ShapeOf(raw) != Closing && InTag(lines)))
  {
    var all := lines + [raw];
    Snoc(lines, raw);
    assert all[..|lines|] == lines;
    SawMore(lines, all, key);
    if Saw(all, key) {
      var i :| 0 <= i < |all| && Visible(all, i, key);
      if i < |lines| {
        assert all[..i] == lines[..i];
        assert Visible(lines, i, key);
      }
    }
    if ShapeOf(raw) == Directive(key) && !InTag(lines) {
      assert Visible(all, |lines|, key);
    }
  }

  lemma SawMore(lines: seq<string>, all: seq<string>, key: string)
    requires lines <= all
    ensures Saw(lines, key) ==> Saw(all, key)
  {
    if Saw(lines, key) {
      var i :| 0 <= i < |lines| && Visible(lines, i, key);
      assert all[..i] == lines[..i];
      assert Visible(all, i, key);
    }
  }

  lemma RewrittenNext(lines: seq<string>, raw: string, auth: Option<string>)
    ensures Rewritten(lines + [raw], auth) == Rewritten(lines, auth) + [Emitted(InTag(lines), raw, auth)]
    ensures Unlines(Rewritten(lines + [raw], auth))
         == Unlines(Rewritten(lines, auth)) + Emitted(InTag(lines), raw, auth) + "\n"
  {
    Snoc(lines, raw);
    Snoc(Rewritten(lines, auth), Emitted(InTag(lines), raw, auth));
  }
}
