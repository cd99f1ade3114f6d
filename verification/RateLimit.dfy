/**
  The rate-limit journal of the control server as a state machine on values:
  one function per operation, and the journal a run of operations leaves.
  Times are Unix seconds in a 64-bit unsigned integer.
 */
module RateLimit {
  import opened Sequences
  import opened Wrappers
  import opened StringOrder

  const MAX_FAILED_ATTEMPTS_PER_IP: nat := 5
  const COOLDOWN_SECS: nat := 12 * 60 * 60
  const GLOBAL_LOCKDOWN_THRESHOLD: nat := 100
  const GLOBAL_LOCKDOWN_WINDOW_SECS: nat := 24 * 60 * 60
  const U64_MAX: nat := 0xFFFF_FFFF_FFFF_FFFF

  type Ip = string

  datatype FailureEvent = FailureEvent(ip: Ip, at: nat)

  datatype IpFailureRecord = IpFailureRecord(count: nat, lastFailure: nat, cooldownUntil: Option<nat>)

  datatype LockdownRecord = LockdownRecord(triggeredAt: nat, offenderIps: seq<Ip>)

  datatype AccessDecision = AccessDecision(
    allowed: bool, cooldownUntil: Option<nat>, lockedDown: bool, silentlyDrop: bool)

  datatype Journal = Journal(
    failures: map<Ip, IpFailureRecord>,
    recent: seq<FailureEvent>,
    banned: set<Ip>,
    lockdown: Option<LockdownRecord>)

  const EMPTY: Journal := Journal(map[], [], {}, None)

  /** `u64::saturating_sub`. */
  function SaturatingSub(a: nat, b: nat): nat {
    if a < b then 0 else a - b
  }

  predicate Expired(e: FailureEvent, now: nat) {
    SaturatingSub(now, e.at) > GLOBAL_LOCKDOWN_WINDOW_SECS
  }

  /** Pops expired events off the front, stopping at the first live one. */
  function TrimRecent(q: seq<FailureEvent>, now: nat): seq<FailureEvent> {
    if q != [] && Expired(q[0], now) then TrimRecent(q[1..], now) else q
  }

  function Admit(j: Journal, ip: Ip, now: nat): AccessDecision {
    if j.lockdown.Some? || ip in j.banned then
      AccessDecision(false, None, j.lockdown.Some?, true)
    else if ip in j.failures && j.failures[ip].cooldownUntil.Some?
              && j.failures[ip].cooldownUntil.value > now then
      AccessDecision(false, j.failures[ip].cooldownUntil, false, true)
    else
      AccessDecision(true, None, false, false)
  }

  /** The distinct addresses of the queue, as a `BTreeSet` lists them. */
  function Offenders(q: seq<FailureEvent>): seq<Ip> {
    if q == [] then [] else Insert(Offenders(q[..|q| - 1]), q[|q| - 1].ip)
  }

  function Charge(r: Option<IpFailureRecord>, now: nat): IpFailureRecord {
    var count := (if r.Some? then r.value.count else 0) + 1;
    if count >= MAX_FAILED_ATTEMPTS_PER_IP then
      IpFailureRecord(0, now, Some(now + COOLDOWN_SECS))
    else
      IpFailureRecord(count, now, if r.Some? then r.value.cooldownUntil else None)
  }

  function RecordOf(j: Journal, ip: Ip): Option<IpFailureRecord> {
    if ip in j.failures then Some(j.failures[ip]) else None
  }

  predicate StartsCooldown(j: Journal, ip: Ip) {
    (if ip in j.failures then j.failures[ip].count else 0) + 1 >= MAX_FAILED_ATTEMPTS_PER_IP
  }

  function Fail(j: Journal, ip: Ip, now: nat): Journal {
    var queue := TrimRecent(j.recent, now) + [FailureEvent(ip, now)];
    var charged := j.(recent := queue, failures := j.failures[ip := Charge(RecordOf(j, ip), now)]);
    if |queue| > GLOBAL_LOCKDOWN_THRESHOLD then
      charged.(banned := j.banned + Elements(Offenders(queue)),
               lockdown := Some(LockdownRecord(now, Offenders(queue))))
    else
      charged
  }

  function FailDecision(j: Journal, ip: Ip, now: nat): AccessDecision {
    AccessDecision(
      false,
      if StartsCooldown(j, ip) then Some(now + COOLDOWN_SECS) else None,
      |TrimRecent(j.recent, now)| + 1 > GLOBAL_LOCKDOWN_THRESHOLD,
      false)
  }

  function Succeed(j: Journal, ip: Ip): Journal {
    if ip in j.failures then
      j.(failures := j.failures[ip := j.failures[ip].(count := 0, cooldownUntil := None)])
    else j
  }

  // ---- runs ----------------------------------------------------------------

  datatype Op =
    | CheckOp(ip: Ip, at: nat)
    | FailureOp(ip: Ip, at: nat)
    | SuccessOp(ip: Ip)
    | UnlockOp
    | UnbanOp(ip: Ip)
  {
    predicate Timed() { CheckOp? || FailureOp? }
  }

  function Apply(j: Journal, op: Op): Journal {
    match op
    case CheckOp(_, now) => j.(recent := TrimRecent(j.recent, now))
    case FailureOp(ip, now) => Fail(j, ip, now)
    case SuccessOp(ip) => Succeed(j, ip)
    case UnlockOp => j.(lockdown := None)
    case UnbanOp(ip) => j.(banned := j.banned - {ip})
  }

  /** What the caller of the operation is told. */
  datatype Answer = Access(decision: AccessDecision) | Removed(was: bool) | Nothing

  function AnswerTo(j: Journal, op: Op): Answer {
    match op
    case CheckOp(ip, now) => Access(Admit(j, ip, now))
    case FailureOp(ip, now) => Access(FailDecision(j, ip, now))
    case UnbanOp(ip) => Removed(ip in j.banned)
    case _ => Nothing
  }

  /** The journal after a run that began with the default one. */
  function Replay(ops: seq<Op>): Journal {
    if ops == [] then EMPTY else Apply(Replay(Front(ops)), Last(ops))
  }

  /** The latest time handed to the journal. */
  function Clock(ops: seq<Op>): nat {
    if ops == [] then 0
    else if Last(ops).Timed() then Last(ops).at
    else Clock(Front(ops))
  }

  ghost predicate Nondecreasing(ops: seq<Op>) {
    ops == [] ||
    (Nondecreasing(Front(ops)) && (Last(ops).Timed() ==> Clock(Front(ops)) <= Last(ops).at))
  }

  /** The server goes on with an attempt unless it is told to drop it. */
  predicate GoesOn(d: AccessDecision) {
    d.allowed || !d.silentlyDrop
  }

  /**
    How the server drives the journal: a failure is registered only for an
    address whose attempt the immediately preceding check, at the same time,
    did not have it drop.
   */
  ghost predicate Gated(ops: seq<Op>) {
    ops == [] ||
    (Gated(Front(ops)) &&
     (Last(ops).FailureOp? ==>
        var before := Front(ops);
        before != [] &&
        Last(before) == CheckOp(Last(ops).ip, Last(ops).at) &&
        GoesOn(Admit(Replay(Front(before)), Last(ops).ip, Last(ops).at))))
  }
}
