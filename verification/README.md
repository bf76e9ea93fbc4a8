# Standby, modelled and proved

Standby records a meeting as an append-only ledger of events. A capture helper, a
daemon, a job runner, an automatic proposer and a UI read and write around that one
ledger, on several threads and across crashes. This project models those parts in
Dafny and proves what they keep. `dafny verify dfyconfig.toml` checks all of it.

## How it is laid out

- **The ledger and its readers** (`Domain`, `KeyedList`, `Replay`, `EventStore`,
  `Readers`, `SourceStatus`, `ProjectionMeaning`, `Capture`). `Replay` says what each projected field means
  as a function of the ledger. `EventStore` is the store as an object, its scans written
  as loops over mutable lists and proved against `Replay`. `Readers` restates each scan on
  the ledger itself (the last row that speaks of a job, the first row that stops the
  backward scan) and proves where the scans agree.
- **The job lifecycle** (`JobProtocol`, `JobSafety`, `JobTheorems`, `Daemon`,
  `JobValues`, `JobReruns`, `CardScan`, `WorkerPoll`). A state machine with one step per append or
  hand-over, crashes and restarts included; its invariant; the promises over every
  feasible schedule, among them exactly when a job is run again and what the card scan
  finds; and the daemon as a class whose every method is proved to be a run of that
  machine.
- **Proposals** (`Proposer`, `ProposalContext`, `Evidence`, `ProposalAgent`,
  `AskStandby`). The reader and the one-in-flight run as interleaved steps; the greedy
  citation validator over an arbitrary model reply; recording a decision taken on a stale
  snapshot; the operator's own request.
- **Audio hand-off** (`CaptureLane`, `AudioHelper`, `DropReports`, `TranscriptSource`).
  The 96-slot ring and the newest-64 stream with callbacks, consumer and stop interleaved
  between any two actions, and any number of sources beside the one that owns the ring
  (the microphone tap is the only source that copies into it); the same as objects updated in place; the helper's lines, drop counts included,
  followed into the ledger and the projection.
- **Text** (`Text`, `Whitespace`, `Redaction`, `PathScan`, `Turns`, `Sequences`).
  Secret redaction, the worker-process path scan, and the transcript turns of the UI.

A schedule is a sequence of steps that is `Feasible` when each was enabled where it was
taken, and `After` gives the state it leads to; theorems about runs quantify over all
feasible schedules. The capture lane's class carries history fields the helper does not
keep (what each ring copy stored, what was reported); they are marked as such.

## What is assumed

- A newly generated id is fresh. Ids are an abstract type with equality only.
- An append is atomic, and a failed append writes nothing. Where the code tolerates a
  failed append, whether it succeeds is an input.
- A read of the ledger fails only on a row that does not decode.
- A lock excludes, and a meeting has one capture reader.
- The state machines interleave freely. A method of the daemon class that makes several
  steps makes them in a row, except that worker turns may come between recovered jobs.
- Rows written by the daemon decode. Other rows may be in the ledger before the first
  boot or land at any time, and need not decode: a payload is either decoded, or
  undecodable with perhaps a readable id. An undecodable terminal job row shows the id of
  no job the ledger otherwise knows.
- Time is a clock that moves on at least 40 ms between polls of a worker; confidence and
  levels are real numbers.
- The model's reply, the worker's behaviour and the outcome of stale-worker cleanup are
  arbitrary inputs.

## What the code does not give

Each of these is a lemma with a run that shows it, or an exact condition.

- A crash between the approval row and the job row leaves a card approved with no job,
  and approving it again is refused as long as nobody ignores it (`CrashOrphansApproval`).
- An approval whose meeting holds a row that does not decode writes its card and job rows
  and then returns an error without sending the job. The job is recoverable but in no
  queue until the daemon restarts (`BadMeetingStrandsJob`); with both rows written and the
  queue open, the job is queued if and only if the meeting decodes
  (`ApprovalSendsExactly`, `ApproveCard`).
- One card row that does not decode, in whatever meeting, makes the scan fail for every
  card recorded before it, and for good: those cards can never again be approved or
  ignored (`OneRowBlocksAll`, `BlockedForGood`). The scan fails in no other case
  (`ScanAgreesWithProjection`), save for ids that were never a card's: those it should
  report as not found.
- A job can be run again after it filed its artifact, exactly by a boot that finds it
  recoverable with an artifact since its last start (`SecondArtifactExactly`,
  `FiledBootReruns`, `ArtifactsBounded`). A crash between the artifact row and the
  completion row is one cause (`CrashRerunsFiledJob`); a completion row and a fallback failure row that both cannot be
  written, followed by any later restart, is another (`UnrecordedEndReruns`).
- Helper exit leaves the source live exactly when it was live and either a failure was on
  record since its last start, because the exit check tests for any failure and liveness
  for a failed status, or the crash row could not be written, which the code ignores
  (`HelperExitStatus`, `PerLaneFailureStaysLive`). A later stop or boot sweep that can
  write its row ends it.
- A partial that arrives after the stop row is shown (`PartialAfterStop`), although a
  comment in the replay says no partial survives under a stopped meeting.
- A restart resets neither a lane's failed or active flag nor its counters
  (`LaneMeaning`, `LaneFailedMeaning`, `DroppedIsGreatest`).
- A request recorded over an empty transcript carries no spans, so selecting by them
  later falls back to the recent window (`RoundTripExactly`). The request handler itself
  holds the store throughout and is not affected.
- The path scan can miss a delimited occurrence for a path that overlaps itself just
  after a boundary byte (`ScanExact`, `ScanMisses`).
- The ring's comment says a slot is out of the stream before the ring wraps back to it.
  That holds if and only if fewer than 32 callbacks run after the end of input
  (`StreamSafeExactly`); and a buffer taken while a copy is in hand survives 31 more
  copies, not 32 (`TakenBufferSlack`, `SlackIsTight`).
- The last drop report can fall short of the total when a source is still inside a callback
  as the input is finished (`LastReportIsTotal`, `LastReportFallsShort`). The microphone
  and a running process tap are stopped first; the ScreenCaptureKit teardown is started
  but not waited for.
- A drop total that does not fit 32 bits is lost on the way into the projection
  (`ProjectedDropsAreTotal`).
- Two transcript segments recorded out of order stay out of order in the UI, because two
  are too few to ask for a synthetic timeline (`TimelineIsSettled`).

## Model

| member | source | states |
|---|---|---|
| Store.EventStore.Projection | crates/standby-core/src/event_log.rs:104-272 | the replay loop returns exactly the projection defined per field in `Replay`, and fails exactly when some payload of the meeting does not decode |
| Store.EventStore.ListEvents | crates/standby-core/src/event_log.rs:76-102 | one meeting's rows, in ledger order |
| Store.EventStore.RecoverableJobs | crates/standby-core/src/event_log.rs:356-400 | the scan over mutable lists computes the recovery fold; its final live filter removes nothing |
| Store.EventStore.FindLatestProposal | crates/standby-core/src/event_log.rs:402-421 | the newest-first scan, which an undecodable proposal row stops with an error |
| Store.EventStore.ReconcileStoppedIfOrphaned | crates/standby-core/src/event_log.rs:306-327 | a stop row is appended exactly when the meeting is live and writable; errors write nothing |
| Store.EventStore.ReconcileOrphanedCaptures | crates/standby-core/src/event_log.rs:335-345 | the boot sweep writes one stop row per live, writable meeting and returns exactly those, although each append changes the log the next check reads |
| Store.ReplayEvent | crates/standby-core/src/event_log.rs:117-254 | one event changes each projected table as its own specification says |
| Store.ReplaySource | crates/standby-core/src/event_log.rs:118-232 | the source-state branches of the replay, event by event |
| Store.DeriveSourceStatus | crates/standby-core/src/event_log.rs:509-547 | the in-place status derivation equals the one-shot decision on the final fold state |
| KeyedList.UpsertById | crates/standby-core/src/event_log.rs:549-558 | in-place replace of the first item with the id, or append |
| KeyedList.RemoveById | crates/standby-core/src/event_log.rs:560-565 | retain of every other id, order kept |
| KeyedList.UpsertAllMeaning | crates/standby-core/src/event_log.rs:239-251 | a stream of upserts leaves under every id its latest item, ids distinct, in order of first appearance |
| Readers.RecoverableExactly | crates/standby-core/src/event_log.rs:356-400 | for every ledger, malformed rows included: a job is listed, once, exactly when the last row that speaks of it is non-terminal with a queued or running payload, and that payload is what is listed |
| Readers.FindLatestExactly | crates/standby-core/src/event_log.rs:402-421 | the backward scan returns the last row about the id, an error if an undecodable row comes first, and nothing exactly when no row stops it |
| Readers.ScanEqualsFold | crates/standby-core/src/event_log.rs:402-421 | backward scan equals forward fold, on any ledger whose rows about the card share a meeting and in which no undecodable row stops the scan |
| CardScan.ScanAgreesWithProjection | crates/standby-core/src/event_log.rs:402-421 | in every reachable state the scan for a card fails if and only if an undecodable card row came after every row about the card; otherwise it finds exactly what the projection of the card's meeting shows, and a card it does not find is in no projection |
| CardScan.OneRowBlocksAll | crates/standby-core/src/event_log.rs:411-416 | from every reachable state one undecodable card row, of whatever card and meeting, makes the scan fail for every card recorded so far |
| CardScan.BlockedForGood | crates/standby-core/src/event_log.rs:402-421 | a recorded card whose scan fails once fails in every continuation of the run: it can never again be approved or ignored |
| Readers.RecoverableIsProjectedLive | crates/standby-core/src/event_log.rs:356-400 | on every settled ledger the recovery scan cut down to a meeting is, as a sequence, the projected job list cut down to queued and running |
| Readers.RunningCount | crates/standby-core/src/event_log.rs:464-468 | the running-job count of a meeting summary is the number of jobs recovery would return for that meeting |
| Replay.FinalsGrow | crates/standby-core/src/event_log.rs:182-198 | a longer ledger extends a meeting's rows and its transcript; nothing already there moves |
| SourceMeaning.StatusReplay | crates/standby-core/src/event_log.rs:140-232 | the replayed status equals a declarative decision table over which rows occurred since the last start, stated in the modes, lanes and level threshold themselves, on every log |
| SourceMeaning.StatusHonesty | crates/standby-core/src/event_log.rs:509-547 | Failed exactly when a whole-source failure has no later start; once started, stopped implies Stopped or Failed, and neither implies one of the four live states |
| SourceMeaning.LaneMeaning | crates/standby-core/src/event_log.rs:140-208 | a lane's expected, active and level-seen flags say which rows occurred; a restart resets only the expectation |
| SourceMeaning.LaneFailedMeaning | crates/standby-core/src/event_log.rs:199-208 | a lane shows as failed exactly when it ever failed, restarts notwithstanding |
| SourceMeaning.RawMeaning | crates/standby-core/src/event_log.rs:140-232 | the status before derivation, as a function of what happened since the last start |
| SourceMeaning.PartialMeaning | crates/standby-core/src/event_log.rs:175-232 | the in-flight utterance shown is the last partial not since cleared by another partial, a final of its speaker, a whole-source failure or a stop |
| SourceMeaning.PartialAfterStop | crates/standby-core/src/event_log.rs:175-181 | a partial that arrives after the stop row is shown, under a stopped source |
| SourceMeaning.StartExpects | crates/standby-core/src/event_log.rs:140-151 | a start expects the microphone in the modes Mic and MicAndSystem, and system audio in System and MicAndSystem, until a sample of the lane or another start |
| SourceMeaning.SystemLaneFailure | crates/standby-core/src/event_log.rs:198-224 | a system-audio failure with no microphone level since the last start shows as Failed exactly when that start asked for system audio alone or an earlier failure had failed the source |
| ProjectionMeaning.ProjectsExactly | crates/standby-core/src/event_log.rs:104-272 | there is no projection exactly when some row of the meeting does not decode |
| ProjectionMeaning.TranscriptIs | crates/standby-core/src/event_log.rs:182-198 | the transcript is the payloads of the final-segment rows, every one of them, in ledger order |
| ProjectionMeaning.RequestsAre | crates/standby-core/src/event_log.rs:233-235 | so are the requests those of the request rows |
| ProjectionMeaning.NoProposalsAre | crates/standby-core/src/event_log.rs:236-238 | so are the decisions against a card |
| ProjectionMeaning.ArtifactsAre | crates/standby-core/src/event_log.rs:252-254 | so are the artifacts |
| ProjectionMeaning.TitleIsLast | crates/standby-core/src/event_log.rs:118-139 | the title is that of the last row that gives one, and there is none without such a row |
| ProjectionMeaning.ModeIsLast | crates/standby-core/src/event_log.rs:118-151 | the mode is that of the last row that sets one |
| ProjectionMeaning.FailureIsLast | crates/standby-core/src/event_log.rs:198-224 | the failure shown is the last one since the source started |
| ProjectionMeaning.LaneMeters | crates/standby-core/src/event_log.rs:152-166 | a lane's level count is the number of its samples, its last level that of the last sample and its captured time the greatest any gave |
| CaptureSupervision.Supervisor.HelperExited | crates/standbyd/src/capture.rs:232-255 | the reader's tail appends a crash row exactly when the source is started, not stopped, without a recorded failure and the row can be written, and forgets the helper either way |
| CaptureSupervision.Supervisor.StopCapture | crates/standbyd/src/capture.rs:263-289 | a running helper is signalled and nothing is written; otherwise the ledger is reconciled, which fails when the meeting does not decode or its stop row cannot be written |
| CaptureSupervision.Supervisor.ExitThenStop | crates/standbyd/src/capture.rs:232-289 | helper exit followed by a stop leaves the meeting live exactly when it was live, the stop row could not be written, and a failure was on record or the crash row was lost too; and then the stop reports an error |
| CaptureSupervision.HelperExitStatus | crates/standbyd/src/capture.rs:234-254 | helper exit alone leaves the meeting live if and only if it was live and either a failure was recorded since its last start or the crash row could not be written |
| CaptureSupervision.PerLaneFailureStaysLive | crates/standbyd/src/capture.rs:238-238 | a concrete log: system lane fails, helper exits, the ledger still shows a live capture |
| CaptureSupervision.SweepMeaning | crates/standby-core/src/event_log.rs:329-345 | after the sweep a meeting is live only if its stop row could not be written; exactly the stopped ones are returned; malformed and Failed meetings keep their logs |
| CaptureSupervision.SecondSweep | crates/standby-core/src/event_log.rs:329-345 | a second sweep finds only what the first could not write |
| JobSafety.InvStep | crates/standbyd/src/main.rs:505-858 | every step of the job protocol keeps the invariant linking ledger, queue, runner, recovery list and pending sends |
| JobSafety.InvAlways | crates/standbyd/src/main.rs:505-858 | the invariant holds after every feasible schedule of steps, undecodable rows from elsewhere, failed appends, crashes and restarts |
| JobSafety.HeldIsRecoverable | crates/standbyd/src/main.rs:618-681 | every job in memory is recoverable from the ledger alone |
| JobTheorems.AtMostOneTerminal | crates/standbyd/src/main.rs:824-858 | in every run, any number of crashes included, a job has at most one terminal row and no job row about it ever follows |
| JobTheorems.NoJobLost | crates/standby-core/src/worker.rs:352-602 | in every reachable state a job with any decodable row in the ledger is either over or recoverable, and never both |
| JobTheorems.RecoverableIsHeld | crates/standbyd/src/main.rs:618-681 | whenever the daemon is up, the recoverable ids are exactly the jobs it still has to re-queue, the queue, the running job and the jobs between append and send, each once, plus those whose failure row could not be written and those an approval left behind after its job row |
| JobTheorems.StrandedInBadMeeting | crates/standbyd/src/main.rs:526-534 | a job is left behind by its approval only in a meeting that does not decode |
| JobTheorems.ReadableLedgerIsHeld | crates/standbyd/src/main.rs:618-681 | with every failure row written and every meeting decodable, the recoverable ids are exactly the jobs in the daemon's hands |
| JobTheorems.ApprovalSendsExactly | crates/standbyd/src/main.rs:526-534 | in every reachable state: once its two rows are written an approval goes on to the send if and only if the card's meeting decodes, and gives up if and only if it does not |
| JobTheorems.ApprovalStrands | crates/standbyd/src/main.rs:526-534 | from every reachable state in which the meeting does not decode, approving the card leaves its job recoverable, in no queue and not running |
| JobTheorems.BadMeetingStrandsJob | crates/standbyd/src/main.rs:526-534 | one undecodable row is such an input: no append fails, the daemon stays up, and the approved job is in nobody's hands |
| JobTheorems.ProjectionAgreesWithRecovery | crates/standby-core/src/event_log.rs:356-400 | in every reachable state the projected queued and running jobs of a meeting are, in order, what recovery returns for it |
| JobTheorems.PromptsAreRedacted | crates/standby-core/src/worker.rs:95-141 | in every run no token of a prompt in the ledger looks like a secret, and the running job's prompt is what the redaction at dispatch gives back |
| JobTheorems.ApprovalBounds | crates/standbyd/src/main.rs:505-574 | approvals of a card are at most its ignores plus one, and job requests equal approvals once the approval in progress and those cut short between their two appends are set aside |
| JobTheorems.CrashOrphansApproval | crates/standby-core/src/worker.rs:146-171 | a crash between the two appends leaves an approved card without its job, and approving it again is refused |
| JobTheorems.CompletionHasArtifact | crates/standby-core/src/worker.rs:520-550 | every completion is preceded by an artifact of the same execution, and artifacts never outnumber starts |
| JobValues.JobRowsSay | crates/standby-core/src/worker.rs:352-602 | in every run each decodable job row carries the status its kind says: requested Queued with five minutes, started Running, completed Completed, failed Failed with a reason, none of the others with a failure left over; and every job handed on is Queued with no trace of an earlier execution |
| JobValues.JobRowsAgree | crates/standby-core/src/worker.rs:95-141 | in every run all rows about a job, and what the worker is given, agree on meeting, card, prompt, minutes and spans |
| CardScan.CardRowsAgree | crates/standbyd/src/main.rs:505-574 | in every run a decision changes nothing of a card but its status: every decodable row about it shows the same meeting, title, draft, evidence and confidence, with the status its kind says |
| JobTheorems.CrashRerunsFiledJob | crates/standby-core/src/worker.rs:531-550 | the plainest instance of a rerun: a crash between the artifact row and the completion row makes recovery run the job again |
| JobReruns.ArtifactsExactly | crates/standby-core/src/worker.rs:352-555 | in every run a job has exactly as many artifacts as times it was started over after filing one, plus one if it has filed one since its last start |
| JobReruns.ArtifactsBounded | crates/standbyd/src/main.rs:618-681 | in every run a job has at most one artifact more than the boots that found it with an artifact on file yet still recoverable |
| JobReruns.FiledBootReruns | crates/standbyd/src/main.rs:618-681 | every such boot can go on, without another boot, to one more artifact |
| JobReruns.SecondArtifactExactly | crates/standby-core/src/worker.rs:520-550 | a run has at most one artifact of a job unless one of its boots finds the job with an artifact on file yet still recoverable; and it has such a boot if and only if from one of them it can go on, with no further boot, to a second artifact |
| JobReruns.CrashRerunsExactly | crates/standby-core/src/worker.rs:531-550 | a crash at any point makes the next boot such a boot if and only if the job has an artifact since its last start and is in the daemon's hands, dropped or stranded |
| JobReruns.UnrecordedEndReruns | crates/standbyd/src/main.rs:842-856 | a crash in that window is not the only cause: a completion and a fallback failure that both cannot be written leave the job open with its artifact on file |
| DaemonRuntime.Daemon.ApproveCard | crates/standbyd/src/main.rs:505-549 | for every outcome of the scan, the two appends, the reply's projection and the send, whatever the worker and other senders are doing: the result, the rows written, the queue and the jobs left behind; and what the job asks for: the operator's prompt if there is one, else the draft, redacted word by word, the evidence's segments, five minutes, Queued |
| DaemonRuntime.Daemon.ProjectReply | crates/standbyd/src/main.rs:531-534 | the handler goes on to the send exactly when the meeting decodes; otherwise the job is stranded |
| DaemonRuntime.Daemon.IgnoreCard | crates/standbyd/src/main.rs:551-574 | the newest value of the card is re-recorded with nothing changed but its status, Ignored, also while a job runs; a missing or unreadable card writes nothing |
| DaemonRuntime.Daemon.Recover | crates/standbyd/src/main.rs:618-681 | recovery with any worker turns between its jobs and the queue possibly closed: the rows, queue and dropped jobs it ends with are those of the per-job specification, every re-queued job Queued with failure and receipt cleared |
| DaemonRuntime.EachJobRecovered | crates/standbyd/src/main.rs:618-681 | whatever turns the worker takes in between, each recovered job's rows are in the ledger: a failure where a stale worker survives, otherwise a progress row, followed by a failure if the queue is closed |
| DaemonRuntime.Daemon.CrashNow | crates/standbyd/src/main.rs:100-111 | queue, runner and pending sends vanish, the ledger stays; still a run of the protocol |
| DaemonRuntime.Daemon.RunJob | crates/standby-core/src/worker.rs:352-555 | one execution leaves exactly the rows its fate implies and returns whether it ended the job itself; its last row then says Completed after success, and otherwise Failed with Unknown for a failed set-up, CliNotFound for no process, Timeout, or the process's own reason |
| DaemonRuntime.Daemon.Supervise | crates/standby-core/src/worker.rs:446-555 | from launch to end: spawn failure, timeout, failure exit, poll error and success each leave their rows |
| DaemonRuntime.Daemon.FinishFailed | crates/standby-core/src/worker.rs:557-579 | a failure row when it can be written, otherwise the error that makes the fallback due |
| DaemonRuntime.Daemon.WorkerTurn | crates/standbyd/src/main.rs:824-858 | receive, run, and the fallback failure only when the runner did not end the job, during recovery or beside a request handler: rows and queue; afterwards the job is either over or still recoverable |
| DaemonRuntime.Daemon.FallBack | crates/standbyd/src/main.rs:844-855 | the fallback row is written at most once and only for an errored run |
| DaemonRuntime.Daemon.QueueIsRecoverable | crates/standbyd/src/main.rs:618-681 | on the running object, whoever is in the middle of what: the recoverable jobs are those in its hands, dropped or stranded, and with nobody at work those in its hands are the queue |
| WorkerPoll.Await | crates/standby-core/src/worker.rs:482-503 | the poll loop ends, with the outcome of the poll that settled it, at most one poll after sixty seconds a minute of budget, kept between five seconds and fifteen minutes |
| Redaction.RedactShape | crates/standby-core/src/worker.rs:285-299 | a redacted token is its own punctuation (quotes, comma, semicolon, parentheses) around the marker; any other token is unchanged |
| Redaction.RedactTokenFixed | crates/standby-core/src/worker.rs:285-299 | no redacted token still looks like a secret, and redacting a token again changes nothing |
| Redaction.RedactPromptTokens | crates/standby-core/src/worker.rs:277-283 | a redacted prompt has as many tokens as the prompt, each the redaction of its original, in order |
| Redaction.RedactPromptIdempotent | crates/standby-core/src/worker.rs:372-376 | the second redaction, at dispatch, changes nothing |
| Redaction.LooksSecretExactly | crates/standby-core/src/worker.rs:287-293 | what counts as a secret: five prefixes, a private key's banner anywhere, or an assigned password in either case |
| PathScan.ScanExact | crates/standbyd/src/main.rs:778-790 | the boundary-delimited scan finds a path that stands alone (its neighbours white space, quotes or one of five separators, by code) whenever there is one, on every command line, if and only if the path has no self-overlap that starts just after a boundary byte |
| PathScan.ScanMisses | crates/standbyd/src/main.rs:778-786 | for every path with such an overlap, a command line on which the scan misses |
| PathScan.AbsolutePathsAreSafe | crates/standbyd/src/main.rs:778-790 | an absolute path without two adjacent boundary bytes has no such overlap |
| Proposer.GateCountIs | crates/standby-core/src/engine.rs:450-453 | how many transcript lengths up to n pass the debounce gate, in closed form, a debounce of zero counting as one |
| Proposer.InvAlways | crates/standbyd/src/capture.rs:190-221 | the in-flight flag, the pending swap and the snapshots taken stay consistent over every interleaving of reader and run, runs that fail before or after their snapshot or panic included |
| Proposer.ModelCallsBounded | crates/standbyd/src/capture.rs:121-136 | over every interleaving a transcript length is snapshotted at most twice, run i + 2 sees a longer transcript than run i, and n finals cause at most 2 * ((n - 2) / d + 1) model calls |
| Proposer.SameLengthTwice | crates/standbyd/src/capture.rs:193-221 | a schedule in which two runs do snapshot the same length |
| EvidenceSelection.CandidateEvidence | crates/standby-core/src/engine.rs:822-857 | fails exactly when a citation is unknown or nothing unused is cited; otherwise the evidence is the unused citations, each once, in the order cited, from the context |
| EvidenceSelection.FreshIds | crates/standby-core/src/engine.rs:826-851 | the ids outside the used set, each exactly once |
| EvidenceSelection.UsedIsTaken | crates/standby-core/src/engine.rs:218-231 | the used set holds exactly what some accepted candidate was the first to cite |
| EvidenceSelection.CandidateStep | crates/standby-core/src/engine.rs:220-231 | the validator's verdict on a candidate is acceptance by the declarative rule, whatever is in the used set |
| ProposalAgent.Propose | crates/standby-core/src/engine.rs:167-264 | with two segments or a message to go on and a reply, the cards are those of the first candidates of the reply, as many as asked for but one at least and three at most; otherwise there are none; and without a card the reason says why |
| ProposalAgent.CardsAreSafe | crates/standby-core/src/engine.rs:217-262 | for every model reply: at most the number asked for, clamped to one to three, confidence floor, context-only non-empty evidence, ids distinct within and across cards, and exactly which confident candidates are rejected |
| ProposalAgent.ProposalDecision | crates/standby-core/src/engine.rs:388-414 | the debounce gate, then a decision over the selected context |
| ProposalAgent.RecordProposalDecision | crates/standby-core/src/engine.rs:419-446 | the decision's rows appended in order up to the first that fails |
| ProposalAgent.RunProposalAgent | crates/standby-core/src/engine.rs:373-382 | project, decide and record under one hold of the store |
| ProposalAgent.StaleDecisionIsSafe | crates/standbyd/src/capture.rs:128-135 | whatever landed between snapshot and record, and however much was written: every citation resolves in the current transcript, transcript and jobs are untouched, existing cards keep their entries, new ones stand as proposed |
| ProposalAgent.DecisionReplay | crates/standby-core/src/engine.rs:419-446 | however much of a decision was written, its cards so far are all it adds to the projected streams |
| ProposalContext.RoundTrip | crates/standby-core/src/proposal_context.rs:15-28 | re-selecting by the recorded spans gives exactly the recorded segments, in order, whatever fresh segments came later |
| ProposalContext.RoundTripExactly | crates/standby-core/src/proposal_context.rs:15-28 | for all requests: the round trip holds if and only if something was recorded or no final has come since |
| ProposalContext.SelectionIs | crates/standby-core/src/proposal_context.rs:10-28 | with no spans the last final segments of the transcript, as many as the limit allows and counting finals only; with spans every final segment with one of those ids; in transcript order |
| ProposalContext.PlacesAre | crates/standby-core/src/proposal_context.rs:10-28 | the places selected from are those of the final segments, or of those with a wanted id, every one of them, in order |
| AskStandby.CreateProposalRequest | crates/standbyd/src/main.rs:450-503 | the operator's request: which inputs are refused, that it records the ids of the last eight final segments or of all, what is written as far as the store went, and that every card cites recorded spans only |
| AskStandby.RequestSelects | crates/standby-core/src/proposal_request.rs:21-46 | the agent's own window, given the recorded spans, selects exactly what the request recorded, either context window |
| AskStandby.AnswerCitesSpans | crates/standby-core/src/proposal_request.rs:11-38 | every card a request yields cites only the spans the request recorded, repeated segment ids included |
| AudioHelper.PcmBufferPool.CopyInto | native/standby-capture-helper/main.swift:150-163 | when a slot is handed out, what it then shows, what else changes and when only the index moves |
| AudioHelper.Lane.OnBuffer | native/standby-capture-helper/main.swift:931-936 | the tap callback: ring slot if it fits, heap copy otherwise, or a lost buffer, as steps of the lane machine |
| AudioHelper.Lane.Submit | native/standby-capture-helper/main.swift:318-326 | count, yield, count a displacement: three machine steps when uninterrupted |
| AudioHelper.Lane.YieldBuffer | native/standby-capture-helper/main.swift:320-325 | the newest-64 stream: append, displace the oldest, or refuse after the end |
| AudioHelper.Lane.OtherYield | native/standby-capture-helper/main.swift:970-1028 | the same for a buffer of a second system-audio source, whose callback may be anywhere inside its own submit |
| AudioHelper.Lane.Drain | native/standby-capture-helper/main.swift:347-373 | after the sources stopped the consumer hears every queued buffer, in order, exactly as it was copied, and its last report is the number dropped |
| CaptureLane.RingAlways | native/standby-capture-helper/main.swift:132-164 | the ring and stream invariant holds over every interleaving of callback, consumer and stop |
| CaptureLane.QueuedBuffersIntact | native/standby-capture-helper/main.swift:132-164 | every buffer in the stream holds what was copied into it and the next slot to be overwritten is not in the stream, as long as fewer than 32 callbacks ran after the end of input |
| CaptureLane.StreamSafeExactly | native/standby-capture-helper/main.swift:1086-1099 | every run with at most n callbacks after the end of input keeps the stream intact if and only if n is below 32 |
| CaptureLane.TakenBufferIntact | native/standby-capture-helper/main.swift:347-371 | the consumer's buffer is overwritten exactly once the ring has come a whole lap past it |
| CaptureLane.TakenBufferSlack | native/standby-capture-helper/main.swift:132-164 | a taken buffer survives 32 more ring copies, 31 if one was in hand when it was taken |
| CaptureLane.SlackIsTight | native/standby-capture-helper/main.swift:132-164 | runs, with a copy in hand and without, in which one ring copy more than that overwrites the buffer the consumer is reading |
| CaptureLane.DropsConserved | native/standby-capture-helper/main.swift:306-345 | received equals consumed plus queued plus dropped plus refused plus in flight, with any number of sources feeding the lane, and the drop reports strictly increase without passing the true count |
| CaptureLane.LastReportIsTotal | native/standby-capture-helper/main.swift:339-373 | the last report is the total exactly when no displaced buffer, of whichever source, was uncounted at that moment, which stopping the sources before finishing the input rules out |
| CaptureLane.LastReportFallsShort | native/standby-capture-helper/main.swift:1086-1099 | a run in which the input is finished while a callback has a displaced buffer still to count, and the last report misses it |
| DropReports.DroppedIsGreatest | crates/standby-core/src/event_log.rs:167-174 | the projected lane count is the greatest count ever reported for the lane |
| DropReports.ProjectedDropsAreTotal | crates/standby-core/src/transcript_source.rs:39-43 | under any reordering or duplication of the reports the projected count is the true total, if and only if the total fits 32 bits |
| TranscriptSource.Normalize | crates/standby-core/src/transcript_source.rs:144-292 | at most one append per helper event, and whether it closed a segment |
| TranscriptSource.RowOfSays | crates/standby-core/src/transcript_source.rs:100-292 | the row of each event: mode from the lanes the mode string mentions, lane from its five names, speaker named or else the lane's own, times, text and counts as given; none for an unknown lane's levels and drops |
| TranscriptSource.ReadLines | crates/standbyd/src/capture.rs:194-221 | the reader's loop: unparsed lines and failed appends leave no row and do not stop it |
| TranscriptSource.TranscriptFollowsHelper | crates/standby-core/src/transcript_source.rs:230-258 | a helper run adds exactly its final segments to the projected transcript, in order, each under its speaker, and never makes the meeting undecodable |
| TranscriptSource.HelperRunShowsTotal | native/standby-capture-helper/main.swift:339-373 | from the audio callback to the projection: the drops shown are the true total if and only if it fits 32 bits |
| TranscriptSource.Ingest | crates/standby-core/src/transcript_source.rs:297-302 | one line, then the debounced agent when it closed a segment, with failing appends and undecodable meetings: what the ledger and transcript become, when the gate opens and when it succeeds |
| TranscriptSource.IngestDiarized | crates/standby-core/src/transcript_source.rs:416-421 | the same for a segment of another provider: its row, then the debounced agent when it is final |
| TranscriptSource.ProposeFromMeeting | crates/standby-core/src/engine.rs:357-371 | the automatic run: the rows of a decision on the transcript as it was, as far as the store took them; none when the meeting does not decode; the transcript is untouched |
| TranscriptSource.IngestLines | crates/standbyd/src/main.rs:410-446 | on the synchronous path, over meeting, helper and diarization lines and whatever fails: the transcript gains what a prefix of the lines closed and each length it reaches is put to the gate once: from an empty meeting n segments open it exactly (n - 2) / d + 1 times; with room for two rows a line the whole input is taken if and only if the meeting decodes or no line closes a segment |
| Turns.BuildTranscriptTimeline | ui/src/main.tsx:1157-1177 | recorded times when usable, otherwise a synthetic timeline fixed by durations and the 250 ms pause |
| Turns.TimelineIsSettled | ui/src/main.tsx:1179-1187 | the shown timeline never needs synthesising again, a synthetic one is strictly increasing, and starts are in order unless exactly two segments were recorded out of order |
| Turns.NeedsSynthesisExactly | ui/src/main.tsx:1179-1187 | recorded times are unusable exactly when at least three segments all start at zero, go back, or have at most two different starts or one for every three segments |
| Turns.SynthesisedLasts | ui/src/main.tsx:1166-1177 | a synthetic segment lasts the longest of 1.5 s, its recorded length and 360 ms a word kept between 1.8 s and 8 s; the next starts 250 ms later |
| Turns.BuildTranscriptTurns | ui/src/main.tsx:1209-1222 | the loop yields a partition of the timeline into turns, each what its segments make it, no two neighbours mergeable |
| Turns.ProperTurns | ui/src/main.tsx:1224-1240 | each turn has one speaker label, at most six segments, no pause over eight seconds, the normal form of its texts joined, every non-space character of them in order, and at most 560 characters once merged |
| Turns.NeighboursApart | ui/src/main.tsx:1224-1229 | a turn ends because the next segment has another label or starts over eight seconds later, or the turn has six segments, or the two texts make 560 characters |
| Turns.GenericNumberIs | ui/src/main.tsx:1926-1929 | the generic labels, by their letters in either case, separator and digits |
| Turns.TurnsAreUnique | ui/src/main.tsx:1209-1229 | a timeline has exactly one such grouping |
| Turns.NormalizeJoined | ui/src/main.tsx:1216-1216 | normalising a merged text once more gives the normal form of the whole; normalisation is idempotent |
| Whitespace.NormalForm | ui/src/main.tsx:1242-1244 | collapsing and trimming gives the words of the text joined by single spaces |
| Whitespace.KeepsLetters | ui/src/main.tsx:1242-1244 | collapsing and trimming keeps every character that is not a space, in order |

## Left out

- DropReports.ProjectedDropsAreTotal: one helper run per ledger; a second run on the same meeting starts its count again while the projection keeps the maximum.
- Store.EventStore.ListEvents: the code fails here already on a row whose text is not JSON; the model lists the row and the projection fails on it.
- TranscriptSource.IngestLines: which kind of line a text is, and which speaker a diarization label stands for, are inputs.
- AudioHelper.PcmBufferPool.CopyInto: one channel per buffer; the code copies every channel the same way.
- AudioHelper.Lane.Drain: the level window (RMS, peak, captured milliseconds) is an input saying when a level is due.
- CaptureLane.QueuedBuffersIntact: the pool holds floats, as the tap's own format does; a pool of another format never hands out a slot, which `CopyInto` states.
- Proposer.ModelCallsBounded: counts decisions that pass the gate; whether the provider answers is an input of `ProposalAgent.Propose`.
- Turns.ProperTurns: millisecond values are integers; the JavaScript numbers are doubles.
- WorkerPoll.Await: the kill and reap after a timeout are not part of this model.
- DaemonRuntime.Daemon.ApproveCard: the response bodies (the projections returned) are not modelled, nor that the projection returned for an already approved card, or after a failed send, can itself fail: neither touches ledger, queue or runner.
- DaemonRuntime.Daemon.Recover: finding and ending stale workers is an input (the set of jobs whose worker survives); only the path scan of that search is modelled. A daemon that cannot write a recovery row exits, which is a crash.
- Counters are unbounded except the 32-bit drop count: the level counter, the received and dropped counters and the captured milliseconds do not wrap.
- SQLite, WAL and JSON: the ledger is a sequence of rows, decoded or not. A row whose stored text is not JSON at all counts as undecodable, whatever its type.
- Event ids, trace ids, timestamps, worker kind, titles of jobs and dollar budgets: no scan modelled here reads them.
- HTTP routing, operator authentication, cookies and origin checks.
- The model providers, prompts, fixtures and environment configuration; a card's kind, rationale and model metadata.
- The sandbox profile, scratch files, receipts, artifact summaries and failure classification: the reason recorded is an input.
- CoreAudio, ScreenCaptureKit, speech recognition and format conversion; what the transcriber does with a buffer after it is fed.
- The helper's one-shot stop signal and watchdogs.
- `start_capture` checks for a running helper and inserts the new one under two separate holds of its lock; two simultaneous starts are not modelled.
- JSON parsing of helper lines, and the diarisation provider's speaker names; meeting summaries other than the running-job count.
- The partial turn at the end of the transcript view, speaker initials and tones, and all other UI.
