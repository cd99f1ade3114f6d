/**
  OpenVPN client profiles as the program reads and rewrites them, line by
  line. Two readers (the profile parser and the credentials probe) and one
  writer (the runtime-profile rewriter) each track inline `<tag>` blocks; the
  parser does so by rules of its own.
 */
module OvpnProfile {
  import opened Sequences
  import opened Text
  import opened Wrappers

  // ---- shared vocabulary ---------------------------------------------------

  /** `starts_with` of a character */
  predicate Starts(t: string, c: char) {
    t != "" && t[0] == c
  }

  predicate IsTag(t: string) {
    Starts(t, '<')
  }

  predicate IsClosing(t: string) {
    |t| > 1 && t[0] == '<' && t[1] == '/'
  }

  predicate IsComment(t: string) {
    t == "" || Starts(t, '#') || Starts(t, ';')
  }

  function Operand(words: seq<string>, i: nat): Option<string> {
    if i < |words| then Some(words[i]) else None
  }

  function Key(words: seq<string>): string {
    if words == [] then "" else Lower(words[0])
  }

  /** `parse::<u16>()`: an optional plus sign, digits, no overflow. */
  function ParseU16(s: string): Option<nat> {
    ParseDigits(if Starts(s, '+') then s[1..] else s)
  }

  predicate AllDigits(s: string) {
    forall i :: 0 <= i < |s| ==> '0' <= s[i] <= '9'
  }

  function ParseDigits(digits: string): Option<nat> {
    if digits == "" || !AllDigits(digits) || DigitsValue(digits) > 0xFFFF then None else Some(DigitsValue(digits))
  }

  function DigitsValue(s: string): nat
    requires AllDigits(s)
  {
    if s == "" then 0 else DigitsValue(Front(s)) * 10 + (Last(s) - '0') as nat
  }

  // ---- the profile parser --------------------------------------------------

  datatype ParsedOvpn = ParsedOvpn(
    remoteHost: string, remotePort: nat, proto: string, dev: string,
    cipher: string, auth: string, hasTlsAuth: bool, hasInlineCerts: bool,
    remotes: seq<(string, nat)>)

  const BLANK_PROFILE: ParsedOvpn :=
    ParsedOvpn("", 1194, "udp", "tun", "", "", false, false, [])

  datatype ReadState = ReadState(profile: ParsedOvpn, inTag: Option<string>)

  predicate IsTlsTag(name: string) {
    name == "tls-auth" || name == "tls-crypt" || name == "tls-crypt-v2"
  }

  predicate IsCertTag(name: string) {
    name == "ca" || name == "cert" || name == "key" || IsTlsTag(name)
  }

  function ReadTag(s: ReadState, tag: string): ReadState
    requires tag != ""
  {
    var body := tag[1..];
    if body == "" || Last(body) != '>' then s
    else
      var name := Front(body);
      if Starts(name, '/') then s.(inTag := None)
      else
        var lower := Lower(name);
        ReadState(
          s.profile.(hasInlineCerts := s.profile.hasInlineCerts || IsCertTag(lower),
                     hasTlsAuth := s.profile.hasTlsAuth || IsTlsTag(lower)),
          Some(lower))
  }

  function ReadRemote(p: ParsedOvpn, words: seq<string>): ParsedOvpn {
    var host := if |words| > 1 then words[1] else "";
    var given := if |words| > 2 then ParseU16(words[2]) else None;
    var port := if given.Some? then given.value else 1194;
    if host == "" then p
    else
      var q := if p.remoteHost == "" then p.(remoteHost := host, remotePort := port) else p;
      q.(remotes := p.remotes + [(host, port)])
  }

  function ReadDirective(p: ParsedOvpn, words: seq<string>): ParsedOvpn {
    var key := Key(words);
    var arg := Operand(words, 1);
    if key == "remote" then ReadRemote(p, words)
    else if key == "proto" && arg.Some? then p.(proto := Lower(arg.value))
    else if key == "port" && arg.Some? && ParseU16(arg.value).Some? then p.(remotePort := ParseU16(arg.value).value)
    else if key == "dev" && arg.Some? then p.(dev := arg.value)
    else if key == "cipher" && arg.Some? then p.(cipher := arg.value)
    else if key == "auth" && arg.Some? then p.(auth := arg.value)
    else if IsTlsTag(key) then p.(hasTlsAuth := true)
    else p
  }

  function ReadLine(s: ReadState, raw: string): ReadState {
    var t := Trim(raw);
    if IsComment(t) then s
    else if IsTag(t) then ReadTag(s, t)
    else if s.inTag.Some? then s
    else s.(profile := ReadDirective(s.profile, Words(t)))
  }

  function Read(lines: seq<string>): ReadState {
    if lines == [] then ReadState(BLANK_PROFILE, None)
    else ReadLine(Read(Front(lines)), Last(lines))
  }

  /** `parse_ovpn` */
  function Parse(text: string): ParsedOvpn {
    Read(Lines(text)).profile
  }

  // ---- the rewriter's view of a line ---------------------------------------

  /** What the credentials probe and the rewriter make of a line. */
  datatype Shape = Opening | Closing | Comment | Directive(key: string)

  function ShapeOf(raw: string): Shape {
    var t := Trim(raw);
    if IsTag(t) then (if IsClosing(t) then Closing else Opening)
    else if IsComment(t) then Comment
    else Directive(Key(Words(t)))
  }

  /** Their tag tracker, after the lines. */
  predicate InTag(lines: seq<string>) {
    lines != [] &&
    match ShapeOf(Last(lines))
    case Opening => true
    case Closing => false
    case _ => InTag(Front(lines))
  }

  /** The line at the index is a directive of that name outside every tag. */
  predicate Visible(lines: seq<string>, i: nat, key: string)
    requires i < |lines|
  {
    ShapeOf(lines[i]) == Directive(key) && !InTag(lines[..i])
  }

  predicate Saw(lines: seq<string>, key: string) {
    exists i :: 0 <= i < |lines| && Visible(lines, i, key)
  }

  /** `needs_auth_user_pass` */
  predicate NeedsAuth(text: string) {
    Saw(Lines(text), "auth-user-pass")
  }

  // ---- the rewriter --------------------------------------------------------

  const DEV_LINE := "dev tun"
  const REDIRECT_LINE := "redirect-gateway def1 bypass-dhcp"
  const NOCACHE_LINE := "auth-nocache"
  const SCRIPT_LINE := "script-security 2"

  function Slashes(s: string): string {
    seq(|s|, i requires 0 <= i < |s| => if s[i] == '\\' then '/' else s[i])
  }

  function AuthLine(path: string): string {
    "auth-user-pass " + Slashes(path)
  }

  function DriverLine(driver: string): string {
    "windows-driver " + driver
  }

  /** The line written for an input line met inside or outside a tag. */
  function Emitted(inTag: bool, raw: string, auth: Option<string>): string {
    var t := Trim(raw);
    if IsTag(t) || inTag || IsComment(t) then raw
    else
      var words := Words(t);
      var key := Key(words);
      if key == "auth-user-pass" then
        if auth.Some? then AuthLine(auth.value)
        else if |words| > 1 then AuthLine(words[1])
        else raw
      else if key == "dev" then DEV_LINE
      else if key == "redirect-gateway" && !Contains(Lower(t), "def1") then REDIRECT_LINE
      else raw
  }

  function Rewritten(lines: seq<string>, auth: Option<string>): (r: seq<string>)
    ensures |r| == |lines|
  {
    if lines == [] then []
    else Rewritten(Front(lines), auth) + [Emitted(InTag(Front(lines)), Last(lines), auth)]
  }

  function Lacking(present: bool, line: string): seq<string> {
    if present then [] else [line]
  }

  function IfGiven(value: Option<string>, present: bool, line: string -> string): seq<string> {
    if value.None? then [] else Lacking(present, line(value.value))
  }

  /** The directives added because the profile lacked them. */
  function Added(auth: Option<string>, driver: Option<string>,
                 sawDev: bool, sawDriver: bool, sawRedirect: bool, sawAuth: bool): seq<string>
  {
    Lacking(sawDev, DEV_LINE) +
    IfGiven(driver, sawDriver, d => DriverLine(d)) +
    Lacking(sawRedirect, REDIRECT_LINE) +
    IfGiven(auth, sawAuth, path => AuthLine(path))
  }

  function Appended(lines: seq<string>, auth: Option<string>, driver: Option<string>): seq<string> {
    Added(auth, driver, Saw(lines, "dev"), Saw(lines, "windows-driver"),
          Saw(lines, "redirect-gateway"), Saw(lines, "auth-user-pass"))
  }

  function WithLine(lines: seq<string>, mark: string, line: string): seq<string> {
    if AnyLineContains(lines, mark) then lines else lines + [line]
  }

  function Hardened(lines: seq<string>): seq<string> {
    WithLine(WithLine(lines, "auth-nocache", NOCACHE_LINE), "script-security", SCRIPT_LINE)
  }

  function Prepared(lines: seq<string>, auth: Option<string>, driver: Option<string>): seq<string> {
    Hardened(Rewritten(lines, auth) + Appended(lines, auth, driver))
  }

  /** The text of the runtime profile. */
  function Prepare(text: string, auth: Option<string>, driver: Option<string>): string {
    Unlines(Prepared(Lines(text), auth, driver))
  }
}
