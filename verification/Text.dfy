/**
  The string operations of the standard library that the OpenVPN code relies
  on: lines, trimming, words, ASCII case folding and substring search.
 */
module Text {
  import opened Sequences

  // ---- white space ---------------------------------------------------------

  /** The Unicode White_Space property. */
  predicate IsSpace(c: char) {
    || '\U{0009}' <= c <= '\U{000D}'
    || c == ' '
    || c == '\U{0085}'
    || c == '\U{00A0}'
    || c == '\U{1680}'
    || '\U{2000}' <= c <= '\U{200A}'
    || c == '\U{2028}'
    || c == '\U{2029}'
    || c == '\U{202F}'
    || c == '\U{205F}'
    || c == '\U{3000}'
  }

  function TrimStart(s: string): (t: string)
    ensures |t| <= |s|
    ensures t != "" ==> !IsSpace(t[0])
  {
    if s != "" && IsSpace(s[0]) then TrimStart(s[1..]) else s
  }

  function TrimEnd(s: string): string {
    if s != "" && IsSpace(Last(s)) then TrimEnd(Front(s)) else s
  }

  /** `str::trim` */
  function Trim(s: string): string {
    TrimEnd(TrimStart(s))
  }

  function TakeWord(s: string): (w: string)
    ensures w <= s
    ensures s != "" && !IsSpace(s[0]) ==> w != ""
  {
    if s == "" || IsSpace(s[0]) then "" else [s[0]] + TakeWord(s[1..])
  }

  /** `str::split_whitespace` */
  function Words(s: string): seq<string>
    decreases |s|
  {
    var t := TrimStart(s);
    if t == "" then [] else [TakeWord(t)] + Words(t[|TakeWord(t)|..])
  }

  ghost predicate NoSpace(s: string) {
    forall i :: 0 <= i < |s| ==> !IsSpace(s[i])
  }

  lemma {:induction false} TakeWordStops(w: string, tail: string)
    requires NoSpace(w)
    requires tail == "" || IsSpace(tail[0])
    ensures TakeWord(w + tail) == w
  {
    if w == "" {
      assert w + tail == tail;
    } else {
      assert (w + tail)[1..] == w[1..] + tail;
      TakeWordStops(w[1..], tail);
      assert w == [w[0]] + w[1..];
    }
  }

  lemma {:induction false} TrimEndKeeps(w: string, tail: string) returns (k: nat)
    requires w != "" && !IsSpace(Last(w))
    ensures k <= |tail| && TrimEnd(w + tail) == w + tail[..k]
  {
    if tail == "" {
      assert w + tail == w;
      k := 0;
    } else if IsSpace(Last(tail)) {
      assert Front(w + tail) == w + Front(tail);
      k := TrimEndKeeps(w, Front(tail));
      assert Front(tail)[..k] == tail[..k];
    } else {
      k := |tail|;
    }
  }

  lemma {:induction false} TrimStartCuts(s: string) returns (k: nat)
    ensures k <= |s| && s[k..] == TrimStart(s) && forall i :: 0 <= i < k ==> IsSpace(s[i])
  {
    if s == "" || !IsSpace(s[0]) {
      k := 0;
    } else {
      k := TrimStartCuts(s[1..]);
      assert s[k + 1..] == s[1..][k..];
      assert forall i :: 1 <= i < k + 1 ==> s[i] == s[1..][i - 1];
      k := k + 1;
    }
  }

  lemma {:induction false} TrimEndCuts(s: string) returns (k: nat)
    ensures k <= |s| && s[..k] == TrimEnd(s) && forall i :: k <= i < |s| ==> IsSpace(s[i])
    ensures k > 0 ==> !IsSpace(s[k - 1])
  {
    if s == "" || !IsSpace(Last(s)) {
      k := |s|;
    } else {
      k := TrimEndCuts(Front(s));
      assert s[..k] == Front(s)[..k];
      assert forall i :: k <= i < |s| ==> s[i] == if i < |s| - 1 then Front(s)[i] else Last(s);
    }
  }

  /** Trimming cuts nothing but blanks, and all of them at both ends. */
  lemma {:induction false} TrimCutsBlanks(s: string) returns (before: string, after: string)
    ensures s == before + Trim(s) + after
    ensures forall i :: 0 <= i < |before| ==> IsSpace(before[i])
    ensures forall i :: 0 <= i < |after| ==> IsSpace(after[i])
    ensures Trim(s) != "" ==> !IsSpace(Trim(s)[0]) && !IsSpace(Last(Trim(s)))
  {
    var t := TrimStart(s);
    var k := TrimStartCuts(s);
    var n := TrimEndCuts(t);
    before, after := s[..k], t[n..];
    assert t == t[..n] + t[n..] && s == s[..k] + s[k..];
    if n > 0 { assert Trim(s)[0] == t[0]; }
  }

  /** Words are cut at blanks, and only there. */
  lemma {:induction false} WordsCons(w: string, c: char, rest: string)
    requires w != "" && NoSpace(w) && IsSpace(c)
    ensures Words(w + [c] + rest) == [w] + Words(rest)
    ensures Words([c] + rest) == Words(rest)
    ensures Words("") == []
  {
    var tail := [c] + rest;
    assert w + [c] + rest == w + tail;
    TakeWordStops(w, tail);
    assert (w + tail)[|w|..] == tail && tail[1..] == rest;
    assert TrimStart(tail) == TrimStart(rest);
  }

  /** A line that is a word, a blank and anything else keeps its word. */
  lemma DirectiveLine(w: string, rest: string)
    requires w != "" && NoSpace(w)
    ensures
      var t := Trim(w + " " + rest);
      t != "" && t[0] == w[0] && Words(t) != [] && Words(t)[0] == w
  {
    var tail := " " + rest;
    assert w + " " + rest == w + tail;
    assert TrimStart(w + tail) == w + tail;
    var k := TrimEndKeeps(w, tail);
    TakeWordStops(w, tail[..k]);
  }

  // ---- case folding and search ---------------------------------------------

  function LowerChar(c: char): char {
    if 'A' <= c <= 'Z' then c - 'A' + 'a' else c
  }

  /** `str::to_ascii_lowercase` */
  function Lower(s: string): (t: string)
    ensures |t| == |s|
  {
    seq(|s|, i requires 0 <= i < |s| => LowerChar(s[i]))
  }

  predicate OccursAt(s: string, needle: string, i: int) {
    0 <= i <= |s| - |needle| && s[i..i + |needle|] == needle
  }

  /** `str::contains` */
  predicate Contains(s: string, needle: string) {
    exists i :: 0 <= i <= |s| && OccursAt(s, needle, i)
  }

  lemma ContainsLeft(a: string, b: string, needle: string)
    requires Contains(a, needle)
    ensures Contains(a + b, needle)
  {
    var i :| 0 <= i <= |a| && OccursAt(a, needle, i);
    assert (a + b)[i..i + |needle|] == a[i..i + |needle|];
    assert OccursAt(a + b, needle, i);
  }

  lemma ContainsRight(a: string, b: string, needle: string)
    requires Contains(b, needle)
    ensures Contains(a + b, needle)
  {
    var i :| 0 <= i <= |b| && OccursAt(b, needle, i);
    assert (a + b)[|a| + i..|a| + i + |needle|] == b[i..i + |needle|];
    assert OccursAt(a + b, needle, |a| + i);
  }

  /** A needle cannot straddle a separator it does not contain. */
  lemma ContainsAcross(a: string, sep: char, b: string, needle: string)
    requires needle != "" && sep !in needle
    ensures Contains(a + [sep] + b, needle) <==> Contains(a, needle) || Contains(b, needle)
  {
    var whole := a + [sep] + b;
    if Contains(whole, needle) {
      var i :| 0 <= i <= |whole| && OccursAt(whole, needle, i);
      assert forall k :: i <= k < i + |needle| ==> whole[k] == needle[k - i];
      assert whole[|a|] == sep;
      if i + |needle| <= |a| {
        assert a[i..i + |needle|] == whole[i..i + |needle|];
        assert OccursAt(a, needle, i);
      } else if i > |a| {
        var j := i - |a| - 1;
        assert b[j..j + |needle|] == whole[i..i + |needle|];
        assert OccursAt(b, needle, j);
      } else {
        assert false;
      }
    }
    if Contains(a, needle) {
      ContainsLeft(a, [sep] + b, needle);
      assert a + [sep] + b == a + ([sep] + b);
    }
    if Contains(b, needle) {
      ContainsRight(a + [sep], b, needle);
    }
  }

  lemma LowerAppend(a: string, b: string)
    ensures Lower(a + b) == Lower(a) + Lower(b)
  {
  }

  // ---- lines ---------------------------------------------------------------

  function FirstNewline(s: string): (n: nat)
    ensures n <= |s|
    ensures '\n' !in s[..n]
    ensures n < |s| ==> s[n] == '\n'
  {
    if s == "" || s[0] == '\n' then 0
    else
      var n := FirstNewline(s[1..]);
      assert s[..n + 1] == [s[0]] + s[1..][..n];
      n + 1
  }

  function StripCr(s: string): string {
    if s != "" && Last(s) == '\r' then Front(s) else s
  }

  /** `str::lines`: a final line without its newline keeps its carriage return. */
  function Lines(s: string): seq<string>
    decreases |s|
  {
    if s == "" then []
    else
      var n := FirstNewline(s);
      if n == |s| then [s] else [StripCr(s[..n])] + Lines(s[n + 1..])
  }

  function Unlines(lines: seq<string>): string {
    if lines == [] then "" else Unlines(Front(lines)) + Last(lines) + "\n"
  }

  ghost predicate SingleLine(s: string) {
    '\n' !in s
  }

  ghost predicate SingleLines(lines: seq<string>) {
    forall i :: 0 <= i < |lines| ==> SingleLine(lines[i])
  }

  lemma {:induction false} LinesAreSingle(s: string)
    ensures SingleLines(Lines(s))
    decreases |s|
  {
    if s == "" {
    } else {
      var n := FirstNewline(s);
      if n < |s| {
        LinesAreSingle(s[n + 1..]);
      } else {
        assert s[..n] == s;
      }
    }
  }

  function StripAll(lines: seq<string>): (r: seq<string>)
    ensures |r| == |lines|
    ensures forall i :: 0 <= i < |lines| ==> r[i] == StripCr(lines[i])
  {
    seq(|lines|, i requires 0 <= i < |lines| => StripCr(lines[i]))
  }

  lemma FirstNewlineIs(line: string, rest: string)
    requires SingleLine(line)
    ensures FirstNewline(line + "\n" + rest) == |line|
  {
    var s := line + "\n" + rest;
    var n := FirstNewline(s);
    assert forall k :: 0 <= k < |line| ==> s[k] == line[k];
    assert forall k :: 0 <= k < n ==> s[k] == s[..n][k];
    assert s[|line|] == '\n';
  }

  lemma LinesCons(line: string, rest: string)
    requires SingleLine(line)
    ensures Lines(line + "\n" + rest) == [StripCr(line)] + Lines(rest)
  {
    var s := line + "\n" + rest;
    FirstNewlineIs(line, rest);
    assert s[..|line|] == line && s[|line| + 1..] == rest;
  }

  lemma {:induction false} UnlinesAppend(a: seq<string>, b: seq<string>)
    ensures Unlines(a + b) == Unlines(a) + Unlines(b)
  {
    if b == [] {
      assert a + b == a;
    } else {
      UnlinesAppend(a, Front(b));
      assert Front(a + b) == a + Front(b);
    }
  }

  lemma UnlinesHead(a: seq<string>)
    requires a != []
    ensures Unlines(a) == a[0] + "\n" + Unlines(a[1..])
  {
    assert a == [a[0]] + a[1..];
    UnlinesAppend([a[0]], a[1..]);
    assert Front([a[0]]) == [];
    assert Unlines([a[0]]) == a[0] + "\n";
  }

  lemma StripAllCons(lines: seq<string>)
    requires lines != []
    ensures StripAll(lines) == [StripCr(lines[0])] + StripAll(lines[1..])
  {
  }

  lemma StripAllJoins(a: seq<string>, b: seq<string>)
    ensures StripAll(a + b) == StripAll(a) + StripAll(b)
  {
  }

  /** Reading back written lines loses only a trailing carriage return of each. */
  lemma {:induction false} LinesUnlines(lines: seq<string>)
    requires SingleLines(lines)
    ensures Lines(Unlines(lines)) == StripAll(lines)
  {
    if lines == [] {
    } else {
      var rest := lines[1..];
      UnlinesHead(lines);
      LinesUnlines(rest);
      LinesCons(lines[0], Unlines(rest));
      StripAllCons(lines);
    }
  }

  lemma {:induction false} UnlinesSplit(a: seq<string>, b: seq<string>)
    requires SingleLines(a) && SingleLines(b)
    requires a != [] && b != [] && Unlines(a) == Unlines(b)
    ensures a[0] == b[0] && Unlines(a[1..]) == Unlines(b[1..])
  {
    UnlinesHead(a);
    UnlinesHead(b);
    FirstNewlineIs(a[0], Unlines(a[1..]));
    FirstNewlineIs(b[0], Unlines(b[1..]));
    assert Unlines(a)[..|a[0]|] == a[0];
    assert Unlines(b)[..|b[0]|] == b[0];
    assert Unlines(a)[|a[0]| + 1..] == Unlines(a[1..]);
    assert Unlines(b)[|b[0]| + 1..] == Unlines(b[1..]);
  }

  /** Written lines determine the text, and the text the lines. */
  lemma {:induction false} UnlinesInjective(a: seq<string>, b: seq<string>)
    requires SingleLines(a) && SingleLines(b)
    ensures Unlines(a) == Unlines(b) <==> a == b
  {
    if a != [] { UnlinesHead(a); }
    if b != [] { UnlinesHead(b); }
    if a != [] && b != [] && Unlines(a) == Unlines(b) {
      UnlinesSplit(a, b);
      UnlinesInjective(a[1..], b[1..]);
      assert a == [a[0]] + a[1..] && b == [b[0]] + b[1..];
    }
  }

  lemma {:induction false} TrimStripped(s: string)
    ensures Trim(StripCr(s)) == Trim(s)
  {
    if s != "" && Last(s) == '\r' {
      TrimFront(s);
    }
  }

  lemma {:induction false} TrimFront(s: string)
    requires s != "" && IsSpace(Last(s))
    ensures Trim(Front(s)) == Trim(s)
  {
    if |s| == 1 {
      assert Front(s) == "" && s[1..] == "";
    } else if IsSpace(s[0]) {
      assert Front(s)[1..] == Front(s[1..]) && Last(s) == Last(s[1..]);
      TrimFront(s[1..]);
    }
  }

  /** Some line of the written text, folded, contains the needle. */
  predicate AnyLineContains(lines: seq<string>, needle: string) {
    exists i :: 0 <= i < |lines| && Contains(Lower(lines[i]), needle)
  }

  lemma {:induction false} UnlinesContains(lines: seq<string>, needle: string)
    requires needle != "" && '\n' !in needle
    ensures Contains(Lower(Unlines(lines)), needle) <==> AnyLineContains(lines, needle)
  {
    if lines == [] {
      assert !Contains("", needle);
    } else {
      var init, line := Front(lines), Last(lines);
      UnlinesContains(init, needle);
      LowerAppend(Unlines(init) + line, "\n");
      LowerAppend(Unlines(init), line);
      assert Lower("\n") == "\n";
      assert Lower(Unlines(lines)) == Lower(Unlines(init)) + Lower(line) + "\n" + "";
      ContainsAcross(Lower(Unlines(init)) + Lower(line), '\n', "", needle);
      assert !Contains("", needle);
      LineEndContains(init, line, needle);
      if AnyLineContains(init, needle) {
        var i :| 0 <= i < |init| && Contains(Lower(init[i]), needle);
        assert lines[i] == init[i];
      }
      if AnyLineContains(lines, needle) {
        var i :| 0 <= i < |lines| && Contains(Lower(lines[i]), needle);
        assert i < |init| ==> lines[i] == init[i];
      }
    }
  }

  lemma LineEndContains(init: seq<string>, line: string, needle: string)
    requires needle != "" && '\n' !in needle
    ensures Contains(Lower(Unlines(init)) + Lower(line), needle)
       <==> Contains(Lower(Unlines(init)), needle) || Contains(Lower(line), needle)
  {
    if init == [] {
      assert Lower(Unlines(init)) + Lower(line) == Lower(line);
      assert !Contains(Lower(""), needle);
    } else {
      var body := Unlines(Front(init)) + Last(init);
      LowerAppend(body, "\n");
      assert Lower("\n") == "\n";
      assert Lower(Unlines(init)) == Lower(body) + "\n" + "";
      ContainsAcross(Lower(body), '\n', "", needle);
      ContainsAcross(Lower(body), '\n', Lower(line), needle);
      assert Lower(Unlines(init)) + Lower(line) == Lower(body) + "\n" + Lower(line);
      assert !Contains("", needle);
    }
  }

  lemma StripCrContains(s: string, needle: string)
    requires needle != "" && '\r' !in needle
    ensures Contains(Lower(StripCr(s)), needle) <==> Contains(Lower(s), needle)
  {
    if s != "" && Last(s) == '\r' {
      LowerAppend(Front(s), "\r");
      assert s == Front(s) + "\r";
      assert Lower("\r") == "\r";
      assert Lower(s) == Lower(Front(s)) + "\r" + "";
      ContainsAcross(Lower(Front(s)), '\r', "", needle);
      assert !Contains("", needle);
    }
  }

  lemma AnyLineCons(line: string, rest: seq<string>, needle: string)
    ensures AnyLineContains([line] + rest, needle) <==> Contains(Lower(line), needle) || AnyLineContains(rest, needle)
  {
    var all := [line] + rest;
    if AnyLineContains(all, needle) {
      var i :| 0 <= i < |all| && Contains(Lower(all[i]), needle);
      assert i > 0 ==> all[i] == rest[i - 1];
    }
    if AnyLineContains(rest, needle) {
      var i :| 0 <= i < |rest| && Contains(Lower(rest[i]), needle);
      assert all[i + 1] == rest[i];
    }
    if Contains(Lower(line), needle) {
      assert all[0] == line;
    }
  }

  lemma ContainsInEither(line: string, rest: string, needle: string)
    requires needle != "" && '\n' !in needle
    ensures Contains(Lower(line + "\n" + rest), needle)
       <==> Contains(Lower(line), needle) || Contains(Lower(rest), needle)
  {
    LowerAppend(line + "\n", rest);
    LowerAppend(line, "\n");
    assert Lower("\n") == "\n";
    ContainsAcross(Lower(line), '\n', Lower(rest), needle);
  }

  lemma AtFirstNewline(s: string)
    requires FirstNewline(s) < |s|
    ensures
      var line, rest := s[..FirstNewline(s)], s[FirstNewline(s) + 1..];
      s == line + "\n" + rest && Lines(s) == [StripCr(line)] + Lines(rest)
  {
  }

  /** Searching a text is searching its lines. */
  lemma {:induction false} LinesContain(s: string, needle: string)
    requires needle != "" && '\n' !in needle && '\r' !in needle
    ensures Contains(Lower(s), needle) <==> AnyLineContains(Lines(s), needle)
    decreases |s|
  {
    var n := FirstNewline(s);
    if s == "" {
      assert !Contains("", needle);
    } else if n == |s| {
      AnyLineCons(s, [], needle);
      assert [s] + [] == Lines(s);
    } else {
      var line, rest := s[..n], s[n + 1..];
      AtFirstNewline(s);
      ContainsInEither(line, rest, needle);
      StripCrContains(line, needle);
      LinesContain(rest, needle);
      AnyLineCons(StripCr(line), Lines(rest), needle);
    }
  }
}
