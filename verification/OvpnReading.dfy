/**
  What the two readers of a profile make of it, told from its lines: which
  lines are in the open, and what each field of the parse is.
 */
module OvpnReading {
  import opened Sequences
  import opened Text
  import opened Wrappers
  import opened OvpnProfile

  // ---- lines in the open, for the parser -----------------------------------

  /** `<...>`, the whole line. */
  predicate CompleteTag(line: string) {
    var t := Trim(line);
    |t| > 1 && t[0] == '<' && t[|t| - 1] == '>'
  }

  predicate OpensTag(line: string) {
    CompleteTag(line) && Trim(line)[1] != '/'
  }

  function TagName(line: string): string
    requires CompleteTag(line)
  {
    Lower(Trim(line)[1..|Trim(line)| - 1])
  }

  ghost predicate NoneAfter(before: seq<string>, j: nat) {
    forall k {:trigger CompleteTag(before[k])} :: j < k < |before| ==> !CompleteTag(before[k])
  }

  /** The latest complete tag is an opening one. */
  ghost predicate Inside(before: seq<string>) {
    exists j {:trigger OpensTag(before[j])} :: 0 <= j < |before| && OpensTag(before[j]) && NoneAfter(before, j)
  }

  /** Neither blank, nor a comment, nor a tag. */
  predicate Speaking(line: string) {
    var t := Trim(line);
    t != "" && t[0] != '#' && t[0] != ';' && t[0] != '<'
  }

  function Fields(line: string): seq<string> {
    Words(Trim(line))
  }

  /** The line, after those before it, is an open directive of that name. */
  ghost predicate Says(before: seq<string>, line: string, key: string) {
    Speaking(line) && !Inside(before) && Fields(line) != [] && Lower(Fields(line)[0]) == key
  }

  ghost predicate SaysWith(before: seq<string>, line: string, key: string) {
    Says(before, line, key) && |Fields(line)| > 1
  }

  lemma {:induction false} InsideNext(before: seq<string>, line: string)
    ensures Inside(before + [line]) <==> OpensTag(line) || (!CompleteTag(line) && Inside(before))
  {
    var all := before + [line];
    assert all[|before|] == line;
    if Inside(all) && !OpensTag(line) {
      var j :| 0 <= j < |all| && OpensTag(all[j]) && NoneAfter(all, j);
      assert all[j] == before[j] && !CompleteTag(all[|before|]);
      forall k | j < k < |before| ensures !CompleteTag(before[k]) { assert !CompleteTag(all[k]); }
      assert NoneAfter(before, j) && OpensTag(before[j]);
    }
    if !CompleteTag(line) && Inside(before) {
      var j :| 0 <= j < |before| && OpensTag(before[j]) && NoneAfter(before, j);
      forall k | j < k < |all| ensures !CompleteTag(all[k]) {
        if k < |before| { assert !CompleteTag(before[k]) && all[k] == before[k]; }
      }
      assert OpensTag(all[j]) && NoneAfter(all, j);
    }
    if OpensTag(line) {
      assert OpensTag(all[|before|]) && NoneAfter(all, |before|);
    }
  }

  lemma {:induction false} TagRead(s: ReadState, line: string)
    requires IsTag(Trim(line))
    ensures
      var r := ReadLine(s, line);
      && r.inTag.Some? == (OpensTag(line) || (!CompleteTag(line) && s.inTag.Some?))
      && r.profile == s.profile.(
           hasInlineCerts := s.profile.hasInlineCerts || (OpensTag(line) && IsCertTag(TagName(line))),
           hasTlsAuth := s.profile.hasTlsAuth || (OpensTag(line) && IsTlsTag(TagName(line))))
  {
    var t := Trim(line);
    if |t| > 1 && Last(t) == '>' {
      assert t[1..] != "" && Last(t[1..]) == '>';
      assert Front(t[1..]) == t[1..|t| - 1];
      assert Starts(Front(t[1..]), '/') <==> t[1] == '/';
    } else if |t| > 1 {
      assert Last(t[1..]) == Last(t);
    }
  }

  /** The parser's tag tracker, told from the lines. */
  lemma {:induction false} TrackerIsInside(lines: seq<string>)
    ensures Read(lines).inTag.Some? <==> Inside(lines)
  {
    if lines == [] {
    } else {
      var before, line := Front(lines), Last(lines);
      TrackerIsInside(before);
      assert lines == before + [line];
      InsideNext(before, line);
      if IsTag(Trim(line)) {
        TagRead(Read(before), line);
      }
    }
  }

  /** What one line does to the profile. */
  lemma {:induction false} LineReads(before: seq<string>, line: string)
    ensures
      var p, q := Read(before).profile, Read(before + [line]).profile;
      if Speaking(line) && !Inside(before) then q == ReadDirective(p, Fields(line))
      else q == p.(
        hasInlineCerts := p.hasInlineCerts || (OpensTag(line) && IsCertTag(TagName(line))),
        hasTlsAuth := p.hasTlsAuth || (OpensTag(line) && IsTlsTag(TagName(line))))
  {
    Snoc(before, line);
    TrackerIsInside(before);
    if IsTag(Trim(line)) {
      TagRead(Read(before), line);
    }
  }

  // ---- numbers -------------------------------------------------------------

  function Power10(n: nat): nat {
    if n == 0 then 1 else 10 * Power10(n - 1)
  }

  /** The number written: each digit times the power of ten of its place. */
  function Decimal(s: string): nat
    requires AllDigits(s)
  {
    if s == "" then 0 else (s[0] - '0') as nat * Power10(|s| - 1) + Decimal(s[1..])
  }

  lemma {:induction false} DecimalSnoc(s: string, c: char)
    requires AllDigits(s) && '0' <= c <= '9'
    ensures AllDigits(s + [c]) && Decimal(s + [c]) == Decimal(s) * 10 + (c - '0') as nat
  {
    if s == "" {
      assert s + [c] == [c];
      assert [c][1..] == "";
    } else {
      assert (s + [c])[1..] == s[1..] + [c] && (s + [c])[0] == s[0];
      DecimalSnoc(s[1..], c);
      Shift((s[0] - '0') as nat, Power10(|s| - 1));
      assert AllDigits([s[0]]);
      assert Power10(|s|) == 10 * Power10(|s| - 1);
      assert Decimal(s + [c]) == (s[0] - '0') as nat * Power10(|s|) + Decimal(s[1..] + [c]);
    }
  }

  lemma Shift(digit: nat, power: nat)
    ensures digit * (10 * power) == digit * power * 10
  {
  }

  lemma {:induction false} ValueIsDecimal(s: string)
    requires AllDigits(s)
    ensures DigitsValue(s) == Decimal(s)
  {
    if s == "" {
    } else {
      ValueIsDecimal(Front(s));
      assert s == Front(s) + [Last(s)];
      DecimalSnoc(Front(s), Last(s));
    }
  }

  /** A port number: digits after at most one plus sign, 65535 at most. */
  ghost predicate IsPort(s: string, n: nat) {
    var digits := if s != "" && s[0] == '+' then s[1..] else s;
    digits != "" && AllDigits(digits) && Decimal(digits) == n && n <= 65535
  }

  lemma {:induction false} PortIsParsed(s: string)
    ensures forall n: nat :: IsPort(s, n) <==> ParseU16(s) == Some(n)
  {
    var digits := if s != "" && s[0] == '+' then s[1..] else s;
    if digits != "" && AllDigits(digits) {
      ValueIsDecimal(digits);
    }
  }

  // ---- fields that the last line decides -----------------------------------

  /** The operand of the last open directive of that name that has one. */
  ghost function LastOperand(lines: seq<string>, key: string): Option<string> {
    if lines == [] then None
    else if SaysWith(Front(lines), Last(lines), key) then Some(Fields(Last(lines))[1])
    else LastOperand(Front(lines), key)
  }

  /** The line at the index is the last open directive of that name with an operand. */
  ghost predicate LastWith(lines: seq<string>, i: nat, key: string)
    requires i < |lines|
  {
    SaysWith(lines[..i], lines[i], key) && forall k :: i < k < |lines| ==> !SaysWith(lines[..k], lines[k], key)
  }

  lemma {:induction false} LastWithFront(lines: seq<string>, i: nat, key: string)
    requires i < |lines| - 1 && !SaysWith(Front(lines), Last(lines), key)
    ensures LastWith(Front(lines), i, key) ==> LastWith(lines, i, key)
  {
    var before, n := Front(lines), |lines| - 1;
    if LastWith(before, i, key) {
      assert before[..i] == lines[..i];
      forall k | i < k < |lines| ensures !SaysWith(lines[..k], lines[k], key) {
        assert lines[..k] == if k < n then before[..k] else before;
        assert k < n ==> before[k] == lines[k];
      }
    }
  }

  /** Where that operand stands; without one, no such directive is in the open. */
  lemma {:induction false} LastOperandIsLast(lines: seq<string>, key: string) returns (i: nat)
    ensures LastOperand(lines, key).Some? ==>
              i < |lines| && LastWith(lines, i, key) && LastOperand(lines, key) == Some(Fields(lines[i])[1])
    ensures LastOperand(lines, key).None? ==> forall k :: 0 <= k < |lines| ==> !SaysWith(lines[..k], lines[k], key)
  {
    if lines == [] {
      i := 0;
    } else {
      var before, n := Front(lines), |lines| - 1;
      if SaysWith(before, Last(lines), key) {
        i := n;
        assert lines[..n] == before;
      } else {
        i := LastOperandIsLast(before, key);
        if LastOperand(before, key).Some? {
          LastWithFront(lines, i, key);
        } else {
          forall k | 0 <= k < |lines| ensures !SaysWith(lines[..k], lines[k], key) {
            assert lines[..k] == if k < n then before[..k] else before;
            assert k < n ==> before[k] == lines[k];
          }
        }
      }
    }
  }

  function OrElse(operand: Option<string>, default: string): string {
    if operand.Some? then operand.value else default
  }

  /** `cipher`, `auth`, `dev` and lowered `proto`: the last operand in the open, or the default. */
  ghost predicate LastOperandsRead(lines: seq<string>, p: ParsedOvpn) {
    && p.cipher == OrElse(LastOperand(lines, "cipher"), "")
    && p.auth == OrElse(LastOperand(lines, "auth"), "")
    && p.dev == OrElse(LastOperand(lines, "dev"), "tun")
    && p.proto == (var proto := LastOperand(lines, "proto"); if proto.Some? then Lower(proto.value) else "udp")
  }

  /** What an open directive does to those fields. */
  lemma {:induction false} DirectiveOperands(p: ParsedOvpn, words: seq<string>)
    requires words != []
    ensures
      var q, key, given := ReadDirective(p, words), Lower(words[0]), |words| > 1;
      && q.cipher == (if key == "cipher" && given then words[1] else p.cipher)
      && q.auth == (if key == "auth" && given then words[1] else p.auth)
      && q.dev == (if key == "dev" && given then words[1] else p.dev)
      && q.proto == (if key == "proto" && given then Lower(words[1]) else p.proto)
  {
  }

  lemma {:induction false} SpeakingHasFields(line: string)
    requires Speaking(line)
    ensures Fields(line) != []
  {
    TrimmedStart(TrimStart(line));
  }

  /** A trimmed line begins with a character that is not blank. */
  lemma {:induction false} TrimmedStart(s: string)
    requires s != "" ==> !IsSpace(s[0])
    ensures TrimEnd(s) != "" ==> TrimEnd(s)[0] == s[0]
  {
    if s != "" && IsSpace(Last(s)) {
      if |s| > 1 { TrimmedStart(Front(s)); }
    }
  }

  lemma {:induction false} OperandLineRead(before: seq<string>, line: string)
    ensures
      var p, q := Read(before).profile, Read(before + [line]).profile;
      && q.cipher == (if SaysWith(before, line, "cipher") then Fields(line)[1] else p.cipher)
      && q.auth == (if SaysWith(before, line, "auth") then Fields(line)[1] else p.auth)
      && q.dev == (if SaysWith(before, line, "dev") then Fields(line)[1] else p.dev)
      && q.proto == (if SaysWith(before, line, "proto") then Lower(Fields(line)[1]) else p.proto)
  {
    LineReads(before, line);
    if Speaking(line) {
      SpeakingHasFields(line);
      DirectiveOperands(Read(before).profile, Fields(line));
    }
  }

  lemma {:induction false} OperandNext(before: seq<string>, line: string, key: string)
    ensures LastOperand(before + [line], key)
         == if SaysWith(before, line, key) then Some(Fields(line)[1]) else LastOperand(before, key)
  {
    Snoc(before, line);
  }

  lemma {:induction false} ReadLastOperands(lines: seq<string>)
    ensures LastOperandsRead(lines, Read(lines).profile)
  {
    if lines == [] {
    } else {
      var before, line := Front(lines), Last(lines);
      ReadLastOperands(before);
      assert lines == before + [line];
      OperandLineRead(before, line);
      OperandNext(before, line, "cipher");
      OperandNext(before, line, "auth");
      OperandNext(before, line, "dev");
      OperandNext(before, line, "proto");
    }
  }

  // ---- remotes and the port ------------------------------------------------

  /** The port is the number, or 1194 if that is no port number or missing. */
  ghost predicate RemotePort(line: string, n: nat) {
    var words := Fields(line);
    if |words| > 2 && exists m :: IsPort(words[2], m) then IsPort(words[2], n) else n == 1194
  }

  /** The remotes are the open `remote` lines with a host, in order. */
  ghost predicate RemotesRead(lines: seq<string>, remotes: seq<(string, nat)>) {
    if lines == [] then remotes == []
    else if SaysWith(Front(lines), Last(lines), "remote") then
      && remotes != []
      && RemotesRead(Front(lines), Front(remotes))
      && Last(remotes).0 == Fields(Last(lines))[1]
      && RemotePort(Last(lines), Last(remotes).1)
    else RemotesRead(Front(lines), remotes)
  }

  lemma {:induction false} WordsAreNotEmpty(s: string, i: nat)
    requires i < |Words(s)|
    ensures Words(s)[i] != ""
    decreases |s|
  {
    var t := TrimStart(s);
    if i > 0 {
      WordsAreNotEmpty(t[|TakeWord(t)|..], i - 1);
    }
  }

  /** The port the parser takes from the line. */
  function PortOf(words: seq<string>): nat {
    var given := if |words| > 2 then ParseU16(words[2]) else None;
    if given.Some? then given.value else 1194
  }

  lemma {:induction false} PortOfIsPort(line: string)
    ensures RemotePort(line, PortOf(Fields(line)))
  {
    if |Fields(line)| > 2 { PortIsParsed(Fields(line)[2]); }
  }

  lemma {:induction false} DirectiveRemote(p: ParsedOvpn, words: seq<string>)
    requires words != [] && (|words| > 1 ==> words[1] != "")
    ensures
      var q := ReadDirective(p, words);
      if Lower(words[0]) == "remote" && |words| > 1 then
        && q.remotes == p.remotes + [(words[1], PortOf(words))]
        && q.remoteHost == (if p.remoteHost == "" then words[1] else p.remoteHost)
        && q.remotePort == (if p.remoteHost == "" then PortOf(words) else p.remotePort)
      else q.remotes == p.remotes && q.remoteHost == p.remoteHost
  {
  }

  lemma {:induction false} RemoteLineRead(before: seq<string>, line: string)
    ensures
      var p, q, words := Read(before).profile, Read(before + [line]).profile, Fields(line);
      if SaysWith(before, line, "remote") then
        exists n: nat {:trigger RemotePort(line, n)} :: RemotePort(line, n) && q.remotes == p.remotes + [(words[1], n)]
          && q.remoteHost == (if p.remoteHost == "" then words[1] else p.remoteHost)
          && q.remotePort == (if p.remoteHost == "" then n else p.remotePort)
      else q.remotes == p.remotes && q.remoteHost == p.remoteHost
  {
    LineReads(before, line);
    if Speaking(line) {
      SpeakingHasFields(line);
      if |Fields(line)| > 1 { WordsAreNotEmpty(Trim(line), 1); }
      DirectiveRemote(Read(before).profile, Fields(line));
      PortOfIsPort(line);
    }
  }

  lemma {:induction false} RemotesNext(before: seq<string>, line: string,
                                       remotes: seq<(string, nat)>, more: seq<(string, nat)>)
    requires RemotesRead(before, remotes)
    requires if SaysWith(before, line, "remote") then
               exists n: nat {:trigger RemotePort(line, n)} ::
                 RemotePort(line, n) && more == remotes + [(Fields(line)[1], n)]
             else more == remotes
    ensures RemotesRead(before + [line], more)
  {
    Snoc(before, line);
    if SaysWith(before, line, "remote") {
      var n: nat :| RemotePort(line, n) && more == remotes + [(Fields(line)[1], n)];
      Snoc(remotes, (Fields(line)[1], n));
    }
  }

  lemma {:induction false} ReadRemotes(lines: seq<string>)
    ensures RemotesRead(lines, Read(lines).profile.remotes)
  {
    if lines == [] {
    } else {
      var before, line := Front(lines), Last(lines);
      ReadRemotes(before);
      assert lines == before + [line];
      RemoteLineRead(before, line);
      RemotesNext(before, line, Read(before).profile.remotes, Read(lines).profile.remotes);
    }
  }

  // ---- the host ------------------------------------------------------------

  ghost predicate RemoteAt(lines: seq<string>, i: nat)
    requires i < |lines|
  {
    SaysWith(lines[..i], lines[i], "remote")
  }

  ghost predicate NoRemote(lines: seq<string>) {
    forall k {:trigger RemoteAt(lines, k)} :: 0 <= k < |lines| ==> !RemoteAt(lines, k)
  }

  /** The host is that of the first remote, and none without any. */
  ghost predicate HostRead(lines: seq<string>, host: string) {
    && (host == "" <==> NoRemote(lines))
    && (host != "" ==> exists i {:trigger RemoteAt(lines, i)} ::
          0 <= i < |lines| && RemoteAt(lines, i) && NoRemote(lines[..i]) && host == Fields(lines[i])[1])
  }

  lemma {:induction false} RemoteAtNext(before: seq<string>, line: string, k: nat)
    requires k <= |before|
    ensures RemoteAt(before + [line], k) <==>
            if k < |before| then RemoteAt(before, k) else SaysWith(before, line, "remote")
  {
    assert (before + [line])[..k] == before[..k];
    assert before[..|before|] == before;
  }

  lemma {:induction false} NoRemoteNext(before: seq<string>, line: string)
    ensures NoRemote(before + [line]) <==> NoRemote(before) && !SaysWith(before, line, "remote")
  {
    forall k | 0 <= k <= |before|
      ensures RemoteAt(before + [line], k) <==>
              if k < |before| then RemoteAt(before, k) else SaysWith(before, line, "remote")
    {
      RemoteAtNext(before, line, k);
    }
    if NoRemote(before + [line]) {
      assert !RemoteAt(before + [line], |before|);
      forall k | 0 <= k < |before| ensures !RemoteAt(before, k) { assert !RemoteAt(before + [line], k); }
    }
  }

  lemma {:induction false} HostNext(before: seq<string>, line: string, host: string)
    requires HostRead(before, host)
    ensures HostRead(before + [line],
                     if host == "" && SaysWith(before, line, "remote") then Fields(line)[1] else host)
  {
    var all := before + [line];
    NoRemoteNext(before, line);
    if host != "" {
      var i :| 0 <= i < |before| && RemoteAt(before, i) && NoRemote(before[..i]) && host == Fields(before[i])[1];
      RemoteAtNext(before, line, i);
      assert RemoteAt(all, i) && all[..i] == before[..i] && all[i] == before[i];
    } else if SaysWith(before, line, "remote") {
      RemoteAtNext(before, line, |before|);
      assert RemoteAt(all, |before|) && all[..|before|] == before && all[|before|] == line;
      WordsAreNotEmpty(Trim(line), 1);
    }
  }

  lemma {:induction false} ReadHost(lines: seq<string>)
    ensures HostRead(lines, Read(lines).profile.remoteHost)
  {
    if lines == [] {
    } else {
      var before, line := Front(lines), Last(lines);
      ReadHost(before);
      assert lines == before + [line];
      RemoteLineRead(before, line);
      HostNext(before, line, Read(before).profile.remoteHost);
    }
  }

  // ---- the port ------------------------------------------------------------

  /** The first open `remote` with a host, or an open `port` with a number. */
  ghost predicate SetsPort(before: seq<string>, line: string, n: nat) {
    || (SaysWith(before, line, "remote") && NoRemote(before) && RemotePort(line, n))
    || (SaysWith(before, line, "port") && IsPort(Fields(line)[1], n))
  }

  /** The port is what the latest such line sets, or 1194 if there is none. */
  ghost predicate PortRead(lines: seq<string>, port: nat) {
    if lines == [] then port == 1194
    else if exists n :: SetsPort(Front(lines), Last(lines), n) then SetsPort(Front(lines), Last(lines), port)
    else PortRead(Front(lines), port)
  }

  lemma {:induction false} DirectivePort(p: ParsedOvpn, words: seq<string>)
    requires words != [] && Lower(words[0]) != "remote"
    ensures
      var q := ReadDirective(p, words);
      if Lower(words[0]) == "port" && |words| > 1 && exists n :: IsPort(words[1], n) then IsPort(words[1], q.remotePort)
      else q.remotePort == p.remotePort
  {
    if |words| > 1 { PortIsParsed(words[1]); }
  }

  lemma {:induction false} OtherLineRead(before: seq<string>, line: string)
    requires !SaysWith(before, line, "remote")
    ensures
      var p, q := Read(before).profile.remotePort, Read(before + [line]).profile.remotePort;
      if SaysWith(before, line, "port") && exists n :: IsPort(Fields(line)[1], n) then IsPort(Fields(line)[1], q)
      else q == p
  {
    LineReads(before, line);
    if Speaking(line) {
      SpeakingHasFields(line);
      if Lower(Fields(line)[0]) != "remote" {
        DirectivePort(Read(before).profile, Fields(line));
      }
    }
  }

  lemma {:induction false} PortLineRead(before: seq<string>, line: string)
    ensures
      var p, q := Read(before).profile.remotePort, Read(before + [line]).profile.remotePort;
      if exists n :: SetsPort(before, line, n) then SetsPort(before, line, q) else q == p
  {
    ReadHost(before);
    if SaysWith(before, line, "remote") {
      RemoteLineRead(before, line);
      assert Lower(Fields(line)[0]) != "port";
      var n: nat :| RemotePort(line, n)
        && Read(before + [line]).profile.remotePort
           == (if Read(before).profile.remoteHost == "" then n else Read(before).profile.remotePort);
      if NoRemote(before) { assert SetsPort(before, line, n); }
    } else {
      OtherLineRead(before, line);
      if n :| SaysWith(before, line, "port") && IsPort(Fields(line)[1], n) { assert SetsPort(before, line, n); }
    }
  }

  lemma {:induction false} ReadPort(lines: seq<string>)
    ensures PortRead(lines, Read(lines).profile.remotePort)
  {
    if lines == [] {
    } else {
      ReadPort(Front(lines));
      assert lines == Front(lines) + [Last(lines)];
      PortLineRead(Front(lines), Last(lines));
    }
  }

  // ---- flags ---------------------------------------------------------------

  ghost predicate TlsLine(before: seq<string>, line: string) {
    || Says(before, line, "tls-auth") || Says(before, line, "tls-crypt") || Says(before, line, "tls-crypt-v2")
    || (OpensTag(line) && TagName(line) in ["tls-auth", "tls-crypt", "tls-crypt-v2"])
  }

  predicate CertLine(line: string) {
    OpensTag(line) && TagName(line) in ["ca", "cert", "key", "tls-auth", "tls-crypt", "tls-crypt-v2"]
  }

  ghost predicate FlagsRead(lines: seq<string>, p: ParsedOvpn) {
    && (p.hasTlsAuth <==> exists i {:trigger TlsAt(lines, i)} :: 0 <= i < |lines| && TlsAt(lines, i))
    && (p.hasInlineCerts <==> exists i {:trigger CertLine(lines[i])} :: 0 <= i < |lines| && CertLine(lines[i]))
  }

  lemma {:induction false} DirectiveFlags(p: ParsedOvpn, words: seq<string>)
    requires words != []
    ensures
      var q, key := ReadDirective(p, words), Lower(words[0]);
      && (q.hasTlsAuth <==> p.hasTlsAuth || key == "tls-auth" || key == "tls-crypt" || key == "tls-crypt-v2")
      && q.hasInlineCerts == p.hasInlineCerts
  {
  }

  lemma {:induction false} FlagLineRead(before: seq<string>, line: string)
    ensures
      var p, q := Read(before).profile, Read(before + [line]).profile;
      && (q.hasTlsAuth <==> p.hasTlsAuth || TlsLine(before, line))
      && (q.hasInlineCerts <==> p.hasInlineCerts || CertLine(line))
  {
    LineReads(before, line);
    if Speaking(line) {
      SpeakingHasFields(line);
      DirectiveFlags(Read(before).profile, Fields(line));
    }
  }

  ghost predicate TlsAt(lines: seq<string>, i: nat)
    requires i < |lines|
  {
    TlsLine(lines[..i], lines[i])
  }

  lemma {:induction false} TlsNext(before: seq<string>, line: string)
    ensures (exists i {:trigger TlsAt(before + [line], i)} :: 0 <= i < |before + [line]| && TlsAt(before + [line], i))
       <==> (exists i {:trigger TlsAt(before, i)} :: 0 <= i < |before| && TlsAt(before, i)) || TlsLine(before, line)
  {
    var all := before + [line];
    assert all[..|before|] == before && all[|before|] == line;
    forall i | 0 <= i < |before| ensures TlsAt(all, i) == TlsAt(before, i) {
      assert all[..i] == before[..i];
    }
    assert TlsAt(all, |before|) == TlsLine(before, line);
  }

  lemma {:induction false} CertNext(before: seq<string>, line: string)
    ensures (exists i {:trigger CertLine((before + [line])[i])} ::
               0 <= i < |before + [line]| && CertLine((before + [line])[i]))
       <==> (exists i {:trigger CertLine(before[i])} :: 0 <= i < |before| && CertLine(before[i])) || CertLine(line)
  {
    var all := before + [line];
    if i :| 0 <= i < |before| && CertLine(before[i]) { assert CertLine(all[i]); }
    if CertLine(line) { assert CertLine(all[|before|]); }
    if i :| 0 <= i < |all| && CertLine(all[i]) {
      if i < |before| { assert CertLine(before[i]); }
    }
  }

  lemma {:induction false} ReadFlags(lines: seq<string>)
    ensures FlagsRead(lines, Read(lines).profile)
  {
    if lines == [] {
    } else {
      var before, line := Front(lines), Last(lines);
      ReadFlags(before);
      assert lines == before + [line];
      FlagLineRead(before, line);
      TlsNext(before, line);
      CertNext(before, line);
    }
  }

  // ---- the whole parse -----------------------------------------------------

  /** Every field of the parse, told from the lines. */
  ghost predicate ReadsAs(lines: seq<string>, p: ParsedOvpn) {
    && LastOperandsRead(lines, p)
    && RemotesRead(lines, p.remotes)
    && HostRead(lines, p.remoteHost)
    && PortRead(lines, p.remotePort)
    && FlagsRead(lines, p)
  }

  lemma {:induction false} ParseReadsLines(text: string)
    ensures ReadsAs(Lines(text), Parse(text))
  {
    ReadLastOperands(Lines(text));
    ReadRemotes(Lines(text));
    ReadHost(Lines(text));
    ReadPort(Lines(text));
    ReadFlags(Lines(text));
  }

  // ---- lines in the open, for the probe and the rewriter --------------------

  predicate TagLine(line: string) {
    Trim(line) != "" && Trim(line)[0] == '<'
  }

  /** The latest line that begins a tag, complete or not, does not begin a closing one. */
  ghost predicate Within(before: seq<string>) {
    exists j :: 0 <= j < |before| && TagLine(before[j]) && !(|Trim(before[j])| > 1 && Trim(before[j])[1] == '/')
      && forall k :: j < k < |before| ==> !TagLine(before[k])
  }

  ghost predicate Asks(before: seq<string>, line: string, key: string) {
    Speaking(line) && !Within(before) && Fields(line) != [] && Lower(Fields(line)[0]) == key
  }

  lemma {:induction false} WithinNext(before: seq<string>, line: string)
    ensures Within(before + [line]) <==>
            if TagLine(line) then !(|Trim(line)| > 1 && Trim(line)[1] == '/') else Within(before)
  {
    var all := before + [line];
    assert all[|before|] == line;
    assert forall k :: 0 <= k < |before| ==> all[k] == before[k];
    if Within(all) {
      var j :| 0 <= j < |all| && TagLine(all[j]) && !(|Trim(all[j])| > 1 && Trim(all[j])[1] == '/')
        && forall k :: j < k < |all| ==> !TagLine(all[k]);
      if j < |before| {
        assert !TagLine(all[|before|]);
        assert TagLine(before[j]);
      }
    }
    if TagLine(line) {
      assert TagLine(all[|before|]);
    } else if Within(before) {
      var j :| 0 <= j < |before| && TagLine(before[j]) && !(|Trim(before[j])| > 1 && Trim(before[j])[1] == '/')
        && forall k :: j < k < |before| ==> !TagLine(before[k]);
      assert TagLine(all[j]);
    }
  }

  lemma {:induction false} InTagIsWithin(lines: seq<string>)
    ensures InTag(lines) <==> Within(lines)
  {
    if lines == [] {
    } else {
      InTagIsWithin(Front(lines));
      assert lines == Front(lines) + [Last(lines)];
      WithinNext(Front(lines), Last(lines));
    }
  }

  /** What the probe and the rewriter see, told from the lines. */
  lemma {:induction false} VisibleIsAsked(lines: seq<string>, i: nat, key: string)
    requires i < |lines| && key != ""
    ensures Visible(lines, i, key) <==> Asks(lines[..i], lines[i], key)
  {
    InTagIsWithin(lines[..i]);
  }

  lemma {:induction false} NeedsAuthIsAsked(text: string)
    ensures NeedsAuth(text) <==>
            exists i :: 0 <= i < |Lines(text)| && Asks(Lines(text)[..i], Lines(text)[i], "auth-user-pass")
  {
    forall i | 0 <= i < |Lines(text)|
      ensures Visible(Lines(text), i, "auth-user-pass") <==> Asks(Lines(text)[..i], Lines(text)[i], "auth-user-pass")
    {
      VisibleIsAsked(Lines(text), i, "auth-user-pass");
    }
  }
}
