# Verified model of the ZeroNode VPN suite

A Dafny model of the stateful parts of the suite, with proofs of what they
keep over whole runs. Seven machines are modelled:

- **Rate-limit journal** of the control server (`RateLimit*.dfy`, `RateLimiter.dfy`):
  sliding window, per-address counters with cooldown, global lockdown and bans.
- **Tor session backend** of the desktop client, Linux paths (`TorSession.dfy`,
  `TorBackend.dfy`, `TorRuns.dfy`, `TorBringUp.dfy`): connect, worker messages, delayed
  retries, disconnect.
- **Tor bootstrap and health worker** (`TorWorker.dfy`).
- **Root helper's ownership watchdog** (`TorWatchdog.dfy`).
- **OpenVPN profile** parser, credentials probe and rewriter (`OvpnProfile.dfy`,
  `OvpnReading.dfy`, `OvpnClient.dfy`, `OvpnShapes.dfy`, `OvpnMeaning.dfy`,
  `OvpnDirectives.dfy`, `OvpnWritten.dfy`, `OvpnIdempotence.dfy`), and the **log verdict** (`OvpnLog.dfy`).
- **Control-plane status poll** (`ControlPoll.dfy`).
- **Split-tunnel synchroniser** (`SplitTunnel.dfy`).

`Sequences`, `Text`, `StringOrder`, `ConnectionPhases` and `Wrappers` hold the shared vocabulary:
Rust's `lines`, `trim`, `split_whitespace`, ASCII case folding, substring
search, string order, `BTreeSet` and `sort`.

Each component appears twice: as functions on values (one per operation) with
lemmas about runs of them, and as the object or loop of the source, whose
methods are proved to compute exactly those functions.

## How to read it

- A **journal run** is a sequence of operations from the default journal.
  `Nondecreasing` says times never go back; `Gated` says a failure is only
  registered right after a check, at the same time, whose answer was not to drop
  the attempt, which is how the server uses the journal
  (`apps/server/src/main.rs:638-699`).
  `now + COOLDOWN_SECS` is assumed not to overflow 64 bits.
- A **backend run** is any sequence of delivered commands. What the outside
  world answers while a command is handled (tor binary found, free port,
  helper reply, isolation preference, ...) is an argument of each step.
- A **profile** is a text; the theorems hold of texts, not of idealised line
  lists, so carriage returns and unterminated last lines count.

## Where the code does less than it is meant to

- *Stale-message guard.* The guard compares ports, so it tells sessions apart
  only while no superseded message finds its port live again.
  `TorRuns.SupersededWorkersAreInvisible` needs no more than that;
  `TorRuns.ReusedPortEndsNewSession` is a run where it fails; and
  `TorRuns.FailureIgnoredIffPortDiffers`, `TorRuns.ProgressIgnoredIff` and
  `TorRuns.ConnectionIgnoredIff` say of each of the three worker messages exactly
  when it is ignored, whoever sent it.
- *Watchdog.* A process id reused before the next tick hides the owner's death
  (`TorWatchdog.ReusedIdHidesDeath`); `TorWatchdog.TickTearsDownIff` is the exact condition.
- *Device normalisation.* The parser and the rewriter track tags by different
  rules, and on an incomplete tag line a `dev` line can be hidden from the
  rewriter alone (`OvpnMeaning.HalfTagKeepsDevice` is such a profile).
  `OvpnMeaning.DeviceBecomesTun` gives the exact condition; on
  complete tags it never happens (`OvpnMeaning.RuntimeProfileMeansTheSame`).
- *Idempotence of the rewriter.* It fails when a tag is left open at the end
  and a directive was missing (`OvpnIdempotence.OpenTagGrows`), when a copied line
  still ends in a carriage return (`\r\r\n`, or a bare `\r` at the very end;
  `OvpnIdempotence.CarriageReturnIsLost`), and when a driver line is added for a
  name that ends in one (`OvpnIdempotence.DriverReturnIsLost`; the one name the
  program passes, `wintun`, does not).
  `OvpnIdempotence.RewritingTwice` proves that these are all the cases.
- *Split-tunnel fingerprint.* App names are joined by commas, so a name with a
  comma can collide with two names, and the change then stays missed at every
  later pump (`SplitTunnel.CommaNamesCollide`); `SplitTunnel.InStepIff` says
  after any pumps exactly when the helper is in step.
- *Log verdict.* On growing logs a verdict read from them is never taken back, but
  one inferred from the process being gone can be (`OvpnLog.GoneIsTakenBack`);
  `OvpnLog.SettledStandsIff` is the exact condition.
- The doc comment of `apply_tor_system_route` calls it a no-op outside Windows
  (apps/client/src/app.rs:9237-9241); the Linux code asks the helper, and the
  model follows the code.

## Model

| member | source | states |
|---|---|---|
| `RateLimitHistory.QueueIsWindow` | crates/core/src/auth.rs:157-165 | after any run with nondecreasing times the trimmed deque is exactly the registered failures at most 24 h older than the latest time, in order |
| `RateLimitHistory.TrimAbsorbed` | crates/core/src/auth.rs:157-165 | trimming at one time is absorbed by trimming at any later time, whatever the queue |
| `RateLimitHistory.LockdownFollowsHistory` | crates/core/src/auth.rs:104-124 | a failure locks down iff more than 100 failures are in the 24 h window; then the record lists precisely their distinct addresses in ascending order and bans exactly those; otherwise bans and lockdown are untouched |
| `RateLimitHistory.LockdownIsClosedForm` | crates/core/src/auth.rs:104-147 | a lockdown record stands iff some failure of the run locked down and no unlock followed; it is the record of the latest such failure, with its window's addresses |
| `RateLimitHistory.BansAreClosedForm` | crates/core/src/auth.rs:112-155 | an address is banned iff some locking failure had it in its window and no unban of it followed |
| `RateLimitHistory.RecordIsClosedForm` | crates/core/src/auth.rs:92-102 | a record exists iff the address ever failed; its count is the failures since the last success modulo 5, its cooldown starts at the latest failure whose ordinal is a multiple of 5 |
| `RateLimitHistory.CheckAnswers` | crates/core/src/auth.rs:52-83 | the whole answer of a check from the run: refused iff locked down, banned or cooling down; silently dropped iff refused; a cooldown time only when that is the reason; locked down iff a lockdown stands |
| `RateLimiter.FailureAnswers` | crates/core/src/auth.rs:85-132 | the whole answer of a failure from the run: never allowed, never dropped, a cooldown at every fifth of the streak, locked down iff more than 100 failures are in the window |
| `RateLimitBounds.PerAddressBounds` | crates/core/src/auth.rs:52-132 | in a gated run an address without success has at most 5 failures in any half-open 12 h window and at most 15 in any closed 24 h window |
| `RateLimitSharpness.BoundsAreAttained` | crates/core/src/auth.rs:11-14 | both bounds are reached by some gated run, so neither can be lowered |
| `RateLimitBounds.LockdownNamesSevenOffenders` | crates/core/src/auth.rs:104-124 | when a gated run without successes locks down, at least 7 distinct addresses are listed |
| `RateLimitSharpness.SevenOffendersSuffice` | crates/core/src/auth.rs:11-14 | some such lockdown lists just seven, so that bound cannot be raised |
| `RateLimitBounds.LockdownHolds` | crates/core/src/auth.rs:55-62 | from a lockdown until an unlock the lockdown record stands and a gated server registers no failure |
| `RateLimitTransparency.ChecksAreTransparent` | crates/core/src/auth.rs:52-83 | deleting any checks from a nondecreasing run changes no later answer and no final failures, bans or lockdown |
| `RateLimiter.EveryFifthFailureCools` | crates/core/src/auth.rs:96-102 | a failure reports a cooldown iff it is the 5th, 10th, ... since the last success, ending 12 h later |
| `RateLimiter.VerdictFollowsHistory` | crates/core/src/auth.rs:104-131 | the lockdown verdict of a failure and the queue it leaves, read off the run alone |
| `RateLimiter.RateLimitJournal.constructor` | crates/core/src/auth.rs:16-22 | the default journal is the empty run |
| `RateLimiter.RateLimitJournal.TrimRecentFailures` | crates/core/src/auth.rs:157-165 | the popping loop computes the trimmed queue |
| `RateLimiter.RateLimitJournal.Check` | crates/core/src/auth.rs:52-83 | the whole answer told from the history: allowed, drop, cooldown time and lockdown; changes only the queue, which becomes the 24 h window |
| `RateLimiter.RateLimitJournal.RegisterFailure` | crates/core/src/auth.rs:85-132 | the journal stays the one its history determines; the answer is neither allowed nor dropped, its cooldown and lockdown are told from that history |
| `RateLimiter.RateLimitJournal.Fail` | crates/core/src/auth.rs:85-132 | the in-place update of queue, record, bans and lockdown |
| `RateLimiter.RateLimitJournal.ChargeAddress` | crates/core/src/auth.rs:92-102 | the record's update and the cooldown it reports |
| `RateLimiter.RateLimitJournal.CollectOffenders` | crates/core/src/auth.rs:106-110 | the ordered set gathered from the queue |
| `RateLimiter.RateLimitJournal.RegisterSuccess` | crates/core/src/auth.rs:134-139 | the streak of the address starts over; everything else is kept |
| `RateLimiter.RateLimitJournal.IsLockedDown` | crates/core/src/auth.rs:141-143 | true iff some failure of the history locked the server down and no unlock has followed |
| `RateLimiter.RateLimitJournal.Unlock` | crates/core/src/auth.rs:145-147 | only the lockdown record goes; window, records and bans stay |
| `RateLimiter.RateLimitJournal.Unban` | crates/core/src/auth.rs:153-155 | exactly that address is removed, and the answer says whether it was banned |
| `TorSession.HandleKeepsCoherence` | apps/client/src/app.rs:6442-6875 | every command keeps: a port is held iff a session is up, the session is Tor's, the route is off without one, the retry counter is in range |
| `TorRuns.RunKeepsCoherence` | apps/client/src/app.rs:6556-6579 | the same over every run of Tor commands in any order |
| `TorRuns.DisconnectIsFinal` | apps/client/src/app.rs:8788-8796 | after Disconnect, any leftover messages, retries and commands but a new connect send no tunnel start, spawn no worker or retry, and leave the route off |
| `TorRuns.DownStaysDown` | apps/client/src/app.rs:9297-9314 | the same from any state without a session |
| `TorRuns.BackendTracksLive` | apps/client/src/app.rs:8297-8332 | port, LAN address and session of the backend are those of the live session, as told from the run alone |
| `TorRuns.ScreenFollowsLiveSession` | apps/client/src/app.rs:6822-6854 | phase and progress show the reports of the live session's port only |
| `TorRuns.StartsNameLiveSession` | apps/client/src/app.rs:9315-9321 | every tunnel start carries the port and LAN address of the session live when it is sent, even when an earlier session scheduled the retry |
| `TorRuns.WorkersBelongToSessions` | apps/client/src/app.rs:8415-8472 | a worker is spawned exactly when a step opens a session with bridges in order, on that session's port |
| `TorRuns.SessionEndStopsTunnel` | apps/client/src/app.rs:8777-8851 | whichever way a session ends, the helper is asked to stop and tor is killed |
| `TorRuns.RouteWasAccepted` | apps/client/src/app.rs:6732-6758 | the client claims the system route only if the helper accepted its latest start for this session |
| `TorRuns.StepSetsRoute` | apps/client/src/app.rs:9315-9367 | a step with a tunnel start sets the route to the helper's answer; no other step turns it on |
| `TorRuns.StartIsSentIff` | apps/client/src/app.rs:6680-6740 | when a tunnel start is requested, exactly: never without a session, never for app isolation or an unknown exit, never for another port |
| `TorRuns.RetryIsScheduledIff` | apps/client/src/app.rs:6693-6722 | when a retry is scheduled, exactly: a session is live, fewer than 24 of its attempts are used, and its worker reports no exit while the system is to be routed, or the helper refuses for want of a guard |
| `TorRuns.AttemptsAreTries` | apps/client/src/app.rs:9342-9366 | the counter is the retries scheduled since the session opened or its route was last settled by a known exit or a final refusal |
| `TorRuns.RouteIsClaimedIff` | apps/client/src/app.rs:6680-6758 | whether the route is claimed, told from the run: by the latest start's answer, until a local stop, app isolation or a report with no attempt left |
| `TorRuns.StopsAndKills` | apps/client/src/app.rs:8777-8851 | which steps ask for a stop or kill tor, exactly and in which order: teardowns even without a session, openings, removals, nothing else |
| `TorRuns.SupersededWorkersAreInvisible` | apps/client/src/app.rs:6562-6579 | as long as no superseded message carries the live port when delivered, deleting them all changes neither the backend nor anything it requests |
| `TorRuns.DistinctPortsAreNotReused` | apps/client/src/app.rs:8280-8291 | sessions with distinct ports meet that proviso |
| `TorRuns.SupersededIsIgnored` | apps/client/src/app.rs:6822-6868 | one such message leaves the state as it is and requests nothing |
| `TorRuns.ReusedPortEndsNewSession` | apps/client/src/app.rs:6855-6875 | the proviso is needed: with one port for two sessions in a row, a failure report of the first ends the second |
| `TorRuns.FailureIgnoredIffPortDiffers` | apps/client/src/app.rs:6855-6868 | a failure report is ignored iff its port is not the live one |
| `TorRuns.ProgressIgnoredIff` | apps/client/src/app.rs:6822-6854 | a progress report is ignored iff its port is not the live one, a connection has been heard of, or it says what is shown |
| `TorRuns.ConnectionIgnoredIff` | apps/client/src/app.rs:6556-6820 | a connection report is ignored iff its port is not the live one, or the session is connected and the report neither requests a start or retry nor takes the route away |
| `TorRuns.BudgetShrinks` | apps/client/src/app.rs:9342-9366 | 25 per pending driving message plus the unused attempts strictly drops at each driving message and never grows otherwise |
| `TorRuns.BringUpTerminates` | apps/client/src/app.rs:6693-6722 | without the user, the driving messages handled and the tunnel starts sent never exceed the initial budget |
| `TorRuns.RefusedChain` | apps/client/src/app.rs:9342-9366 | the budget is used in full: a chain refused for want of a guard schedules exactly the attempts left, then gives up and starts the count over |
| `TorRuns.FreshSessionIsBounded` | apps/client/src/app.rs:8293-8298 | a fresh session with n connection reports sends at most 25 n + 24 tunnel starts by itself |
| `TorBringUp.WorkerSessionIsBounded` | apps/client/src/app.rs:8506-8697 | a fresh session and its worker, left alone, send at most 74 tunnel starts, whatever the worker meets and however messages and retries interleave |
| `TorBringUp.WorkerConnectsTwice` | apps/client/src/app.rs:8590-8675 | what a worker says holds at most two connection reports |
| `TorBackend.BackendState.constructor` | apps/client/src/app.rs:6191-6240 | the backend starts idle and coherent |
| `TorBackend.BackendState.HandleCommand` | apps/client/src/app.rs:6442-6875 | the dispatcher does what the step function says, and keeps coherence |
| `TorBackend.BackendState.ConnectToTor` | apps/client/src/app.rs:8190-8421 | connect: refused while a session is up or without tor; a bridge error leaves a session without a worker |
| `TorBackend.BackendState.HandleConnected` | apps/client/src/app.rs:6556-6820 | both guards, isolation mode, retry budget, helper request |
| `TorBackend.BackendState.HandleBootstrapPct` | apps/client/src/app.rs:6822-6854 | moves the bar only for the live connecting session |
| `TorBackend.BackendState.HandleFailed` | apps/client/src/app.rs:6855-6875 | tears down the live session or nothing |
| `TorBackend.BackendState.DisconnectNow` | apps/client/src/app.rs:8769-9024 | the three teardown branches, cancelling before stopping |
| `TorBackend.BackendState.ApplySystemRoute` | apps/client/src/app.rs:9290-9369 | ignores stale retries, requests a start, reschedules on a bootstrapping refusal within budget |
| `TorBackend.BackendState.RemoveSystemRoute` | apps/client/src/app.rs:9448-9464 | asks the helper to stop and drops the flag if the local stop works |
| `TorWorker.RunWorker` | apps/client/src/app.rs:8506-8697 | progress is that of the polls before bootstrap ends; the first connection is the exit first found, or unknown when none was; the second comes iff that exit had no country and a later look has one, and carries it; then at most one failure, iff the monitor gives up |
| `TorWorker.PollBootstrap` | apps/client/src/app.rs:8564-8658 | stops at the first exit or answered probe within 180 polls; one progress report for every change |
| `TorWorker.ReportConnection` | apps/client/src/app.rs:8590-8670 | the connection reports, told from the polls and the later looks |
| `TorWorker.Refine` | apps/client/src/app.rs:8618-8646 | a fuller report iff some look knows the country before tor exits: that of the first such look |
| `TorWorker.MonitorHealth` | apps/client/src/app.rs:8677-8696 | gives up at the first tick where tor is gone or the second probe in a row failed, never before |
| `TorWatchdog.OwnerIsLatestClaim` | apps/client/src/helper.rs:213-247 | the owner pid is p iff p is the latest graphical client to have asked since the tunnel was last given up |
| `TorWatchdog.TickTearsDownIff` | apps/client/src/helper.rs:98-112 | a tick tears down iff the latest claimant's id is not in the process table |
| `TorWatchdog.WatchdogFollowsClient` | apps/client/src/helper.rs:92-114 | after a client's request, whatever foreign requests follow, no tick stops the tunnel while it lives and the first tick after its death, only that one, does |
| `TorWatchdog.ReusedIdHidesDeath` | apps/client/src/helper.rs:100-104 | if the id is reused before the tick, the death goes unnoticed |
| `TorWatchdog.HelperDaemon.constructor` | apps/client/src/helper.rs:68-69 | no owner at boot |
| `TorWatchdog.HelperDaemon.DispatchTorStart` | apps/client/src/helper.rs:213-245 | only a live peer whose executable is vpn-client becomes owner |
| `TorWatchdog.HelperDaemon.DispatchTorStop` | apps/client/src/helper.rs:246-254 | ownership is dropped |
| `TorWatchdog.HelperDaemon.WatchdogTick` | apps/client/src/helper.rs:98-112 | one round of the watchdog loop |
| `OvpnMeaning.RewritingPreservesMeaning` | apps/client/src/ovpn.rs:214-334 | for every text, even badly tagged, the parser reads the same fields from the runtime profile, the device aside |
| `OvpnMeaning.RuntimeProfileMeansTheSame` | apps/client/src/ovpn.rs:200-204 | on complete tag lines the device becomes "tun" and nothing else changes |
| `OvpnMeaning.DeviceBecomesTun` | apps/client/src/ovpn.rs:273-277 | exactly when the device becomes "tun" |
| `OvpnMeaning.HalfTagKeepsDevice` | apps/client/src/ovpn.rs:54-72 | an incomplete tag between two dev lines keeps the second one's device |
| `OvpnMeaning.TrackersAgree` | apps/client/src/ovpn.rs:48-72 | on complete tag lines the parser's and the rewriter's tag trackers agree after every line |
| `OvpnMeaning.BodyRead` | apps/client/src/ovpn.rs:229-299 | the rewritten lines are read like the originals, line by line, up to the device |
| `OvpnMeaning.ExtraRead` | apps/client/src/ovpn.rs:301-329 | the added lines change nothing the parser keeps but the device |
| `OvpnMeaning.FirstRemoteWins` | apps/client/src/ovpn.rs:78-91 | the host is that of the first listed remote, and listed remotes have names |
| `OvpnReading.ParseReadsLines` | apps/client/src/ovpn.rs:34-127 | every field of the parse from the lines: cipher, auth, dev and proto are the last operand in the open or the default, the remotes those listed in the open, the port that of the latest first remote or port line, the flags whether such a directive or tag occurs |
| `OvpnReading.LastOperandIsLast` | apps/client/src/ovpn.rs:92-116 | the operand read is that of the last such directive in the open; without one there is none |
| `OvpnReading.TrackerIsInside` | apps/client/src/ovpn.rs:48-75 | the parser is inside a tag iff the latest complete tag line opens one |
| `OvpnReading.PortIsParsed` | apps/client/src/ovpn.rs:80-98 | a port is digits after at most one plus sign, valued by place, 65535 at most |
| `OvpnReading.InTagIsWithin` | apps/client/src/ovpn.rs:130-150 | the probe is inside a tag iff the latest line beginning with `<` does not begin with `</` |
| `OvpnMeaning.PreparedLines` | apps/client/src/ovpn.rs:331-332 | the lines read back from the written text |
| `OvpnShapes.EmittedShape` | apps/client/src/ovpn.rs:252-298 | a written line is met by tag tracker and probe like the line it replaces |
| `OvpnDirectives.ProbeAfterRewriting` | apps/client/src/ovpn.rs:130-150 | the credentials probe on the output: unchanged without a file; with one, true unless it was false and a tag is open at the end |
| `OvpnDirectives.RedirectAfterRewriting` | apps/client/src/ovpn.rs:283-314 | the output asks for the default route in the open iff the input did or closes its tags |
| `OvpnDirectives.DirectivesSettled` | apps/client/src/ovpn.rs:252-322 | outside tags every dev is "dev tun", every redirect-gateway mentions def1, every auth-user-pass names the given file, its backslashes turned round and nothing else changed, or a backslash-free operand |
| `OvpnDirectives.AddedIsMissing` | apps/client/src/ovpn.rs:301-322 | no directive is added that the profile already had |
| `OvpnDirectives.OtherLinesAreCopied` | apps/client/src/ovpn.rs:229-298 | every line but a visible auth-user-pass, dev or redirect-gateway directive stands unchanged at its old place |
| `OvpnWritten.LineForLine` | apps/client/src/ovpn.rs:229-298 | what is written for each line, literally: "dev tun", "redirect-gateway def1 bypass-dhcp" unless def1 is mentioned, "auth-user-pass" with the file or the operand with its backslashes turned round, or the line itself |
| `OvpnWritten.CredentialsAreNamed` | apps/client/src/ovpn.rs:177-179 | with a file given, every visible auth-user-pass of the output names it, character by character |
| `OvpnWritten.WhatIsAdded` | apps/client/src/ovpn.rs:301-329 | after those lines come exactly the missing directives, in order, then each hardening line unless a line before mentions it |
| `OvpnIdempotence.RewritingTwice` | apps/client/src/ovpn.rs:229-329 | rewriting the output again changes nothing iff no copied line and no added driver name ends in a carriage return and (tags are closed at the end or no directive was missing), all told from the input |
| `OvpnIdempotence.OpenTagGrows` | apps/client/src/ovpn.rs:301-321 | a profile that is one open tag changes again |
| `OvpnIdempotence.CarriageReturnIsLost` | apps/client/src/ovpn.rs:229-234 | so does a directive followed by two carriage returns |
| `OvpnIdempotence.DriverReturnIsLost` | apps/client/src/ovpn.rs:306-311 | so does the empty profile with a driver name that ends in one |
| `OvpnIdempotence.EmittedTwice` | apps/client/src/ovpn.rs:252-298 | each written line is a fixed point of rewriting |
| `OvpnClient.ParseOvpn` | apps/client/src/ovpn.rs:34-127 | every field of the result told from the lines of the profile |
| `OvpnClient.NeedsAuthUserPass` | apps/client/src/ovpn.rs:130-150 | true iff some line outside every tag, neither comment nor tag, has auth-user-pass for its first word |
| `OvpnClient.PrepareRuntimeProfile` | apps/client/src/ovpn.rs:214-329 | the loop, the appended directives and the hardening lines give the prepared text, which stands for the profile line for line |
| `OvpnClient.RewriteLines` | apps/client/src/ovpn.rs:229-299 | buffer and flags after all lines |
| `OvpnClient.RewriteLine` | apps/client/src/ovpn.rs:230-298 | one round of the loop |
| `OvpnClient.RewriteDirective` | apps/client/src/ovpn.rs:248-298 | the dispatch on the directive's name |
| `OvpnClient.AppendDirectives` | apps/client/src/ovpn.rs:301-321 | missing directives in order |
| `OvpnClient.AppendHardening` | apps/client/src/ovpn.rs:323-329 | each hardening line is added iff no line of the text so far mentions it |
| `OvpnLog.VerdictNeverDrops` | apps/client/src/ovpn.rs:346-386 | as either log grows, the verdict on the merge never drops in Up > AuthFailed > Fatal > Exited > Connecting |
| `OvpnLog.RankByMarks` | apps/client/src/ovpn.rs:346-386 | which verdict a log gets, by the groups of markers it mentions |
| `OvpnLog.MergeMentions` | apps/client/src/ovpn.rs:394-411 | joining the logs neither makes up nor loses a marker |
| `OvpnLog.FatalQuotesTheLog` | apps/client/src/ovpn.rs:358-381 | a fatal detail is a line of the log, the last one with the first marker found |
| `OvpnLog.InspectOpenvpnLog` | apps/client/src/ovpn.rs:346-386 | the scan computes the verdict |
| `OvpnLog.FindDetail` | apps/client/src/ovpn.rs:373-379 | the backwards search finds the last line with the marker |
| `OvpnLog.WaitForUp` | apps/client/src/ovpn.rs:389-457 | the wait ends at the first look that decides, with that look's verdict |
| `OvpnLog.WaitVerdictStands` | apps/client/src/ovpn.rs:389-457 | on growing logs every later look's verdict ranks at least as high as the one the wait ended with, unless that was inferred from the process being gone |
| `OvpnLog.SettledStandsIff` | apps/client/src/ovpn.rs:418-440 | exactly when a settled verdict is taken back |
| `OvpnLog.GoneIsTakenBack` | apps/client/src/ovpn.rs:418-440 | a look whose settled verdict is taken back |
| `ControlPoll.PollsCountFailures` | apps/client/src/app.rs:9727-9839 | from a lease on, the counter is the failed polls since the last lease and the phase is Error after a failure iff they reach four, over both code paths |
| `ControlPoll.PollsKeepLatestLease` | apps/client/src/app.rs:9783-9806 | the connection is that of the latest lease: its server, its session, and no cooldown |
| `ControlPoll.CooldownRunsOut` | apps/client/src/app.rs:9682-9693 | a cooling connection is untouched until the first poll at or after its end, and gone from then on |
| `ControlPoll.NoSessionNoPoll` | apps/client/src/app.rs:9695-9723 | a connection without a session is left alone |
| `ControlPoll.ControlBackend.PollActiveConnection` | apps/client/src/app.rs:9673-9752 | one poll, with its early exits |
| `ControlPoll.ControlBackend.ConsumeStatus` | apps/client/src/app.rs:9754-9839 | one answered poll |
| `SplitTunnel.HelperIsInStep` | apps/client/src/app.rs:882-897 | with clean names, after every pump the commands sent, folded, are exactly what the pump asks for, and none was idle |
| `SplitTunnel.FingerprintIdentifies` | apps/client/src/app.rs:871-880 | fingerprints agree iff mode and app multiset agree, for comma-free names and bar-free modes |
| `SplitTunnel.InStepIff` | apps/client/src/app.rs:886-891 | after any pumps, whatever the names, the helper is in step iff the last pump asks for nothing or for the same as the first of the trailing block of pumps with its fingerprint |
| `SplitTunnel.HelperFollowsAnchor` | apps/client/src/app.rs:882-897 | the commands sent, folded, are what the first pump of that block asked for |
| `SplitTunnel.LatestCommand` | apps/client/src/app.rs:882-897 | the latest command carries that pump's own mode and apps while routing is enabled and a tunnel is up; otherwise it is a clear, if anything was sent |
| `SplitTunnel.AnchorOpensBlock` | apps/client/src/app.rs:882-897 | where that block begins: all later pumps look like it, the one before does not |
| `SplitTunnel.CommaNamesCollide` | apps/client/src/app.rs:878 | two different app lists with one fingerprint: the change is missed, at that pump and all later ones |
| `SplitTunnel.SplitSync.PumpSplitTunnel` | apps/client/src/app.rs:882-897 | one pump |
| `StringOrder.SortCanonical` | apps/client/src/app.rs:872-873 | sorting two lists gives the same iff they are reorderings |
| `StringOrder.LessIsLexicographic` | crates/core/src/auth.rs:106-116 | the order is decided where the strings first differ |
| `StringOrder.InsertKeepsSet` | crates/core/src/auth.rs:106-116 | an ordered set lists each element once, ascending |
| `Text.LinesUnlines` | apps/client/src/ovpn.rs:229-234 | written lines read back lose only a trailing carriage return |
| `Text.LinesContain` | apps/client/src/ovpn.rs:372-377 | a newline-free marker is in a text iff it is in one of its lines |
| `Text.TrimCutsBlanks` | apps/client/src/ovpn.rs:44 | trimming cuts blanks only, and all of them at both ends |
| `Text.WordsCons` | apps/client/src/ovpn.rs:74 | words are cut at blanks and only there |

## Left out

- Display fields of the Tor session (endpoint, server name, country, exit card, notices): user interface.
- The branch taken when no root helper answers, and the Windows branches: the model assumes a helper that replies.
- Other protocols' connects: they may replace the active connection while Tor is up, so the Tor invariants are about Tor-only runs.
- Interleavings inside one dispatch or one watchdog tick: the code takes no lock across them, and each is one atomic step here.
- Process spawning, routes, firewall, proxy settings, sockets, DNS, GeoIP, SQLite and TOML storage: their answers are inputs of the steps.
- The choice of the Windows driver and the writing of the profile file: the driver is an argument, the text is the result.
- A credentials path containing a line break: the theorems about profiles assume a path and a driver name on one line each.
- A log file that cannot be read: each look at the logs sees their text, empty when the file is missing.
- `list_bans`, password hashing, key generation, the server list merge and label formatting: easy or external.
- The user interface, both dashboards, the tray and the map data.
