/** The daemon as it runs: a shared store and an in-memory queue, changed step by
    step. Every method is proved to be a run of the job protocol. */
module DaemonRuntime {
  import opened Sequences
  import opened Domain
  import opened KeyedList
  import opened Replay
  import opened Text
  import opened Redaction
  import opened Store
  import opened JobProtocol
  import opened JobSafety
  import opened JobTheorems

  datatype ApproveOutcome =
    | Undecodable | NotFound | AlreadyApproved
    | NotRecorded              // the approval row could not be written
    | ApprovedWithoutJob       // the approval row is written, the job row is not
    | RequestedNotSent(job: Job)  // both rows are written, but the meeting does not decode
    | Enqueued(job: Job)
    | QueueGone(job: Job)      // the worker queue is closed: the job is failed at once

  /** Which of the approval handler's writes and hand-overs succeed. */
  datatype ApproveIo = ApproveIo(approvalWritten: bool, requestWritten: bool, sent: bool, failureWritten: bool)

  /** What the handler does is settled by the newest row about the card, by whether the
      card's meeting decodes, and by which writes and hand-overs succeed. */
  ghost function OutcomeOf(log: seq<Event>, id: Id, jobId: Id, prompt: Option<string>, io: ApproveIo): ApproveOutcome {
    match FindLatest(log, id)
    case Unreadable => Undecodable
    case Missing => NotFound
    case Newest(card) => OutcomeOfCard(card, CardReadable(log, id), jobId, prompt, io)
  }

  function OutcomeOfCard(card: Proposal, readable: bool, jobId: Id, prompt: Option<string>, io: ApproveIo)
    : ApproveOutcome
  {
    if card.body.status == Approved then AlreadyApproved
    else if !io.approvalWritten then NotRecorded
    else if !io.requestWritten then ApprovedWithoutJob
    else if !readable then RequestedNotSent(BuildJob(card, jobId, prompt))
    else if io.sent then Enqueued(BuildJob(card, jobId, prompt))
    else QueueGone(BuildJob(card, jobId, prompt))
  }

  /** The handler's rows: the card approved, the job asked for, and the job's failure when
      the queue is gone. */
  function ApproveRows(found: Found, outcome: ApproveOutcome, io: ApproveIo): seq<Event> {
    if !found.Newest? then []
    else
      var card := found.proposal;
      var approved := card.(body := card.body.(status := Approved));
      var approval := [Event(card.body.meeting, ProposalEvent(Approve, Good(approved)))];
      match outcome
      case ApprovedWithoutJob => approval
      case RequestedNotSent(job) => approval + [Event(job.body.meeting, JobEvent(Requested, Good(job)))]
      case Enqueued(job) => approval + [Event(job.body.meeting, JobEvent(Requested, Good(job)))]
      case QueueGone(job) =>
        approval + [Event(job.body.meeting, JobEvent(Requested, Good(job)))]
        + (if io.failureWritten then [FailedRow(job, Unknown)] else [])
      case _ => []
  }

  /** The row that says the job failed, and why. */
  function FailedRow(job: Job, reason: JobFailure): Event {
    Event(job.body.meeting,
          JobEvent(Fail, Good(job.(body := job.body.(status := JobStatus.Failed, failure := Some(reason))))))
  }

  /** The job asks for what the operator approved: the prompt given with the approval, or
      else the card's draft, word for word but redacted; the card's evidence; five minutes;
      and nothing has become of it yet. */
  ghost predicate AsksFor(job: Job, id: Id, card: Proposal, prompt: Option<string>) {
    var text := match prompt case Some(given) => given case None => card.body.draftPrompt;
    var words, asked := Split(text, SPACE), Split(job.body.prompt, SPACE);
    && job.id == id && job.body.meeting == card.body.meeting && job.body.proposal == Some(card.id)
    && |asked| == |words| && (forall i | 0 <= i < |words| :: asked[i] == RedactToken(words[i]))
    && |job.body.spans| == |card.body.evidence|
    && (forall i | 0 <= i < |job.body.spans| :: job.body.spans[i] == card.body.evidence[i].segmentId)
    && job.body.maxMinutes == 5 && job.body.status == Queued
    && job.body.note.None? && job.body.failure.None? && job.body.receipt.None?
  }

  lemma BuiltAsksFor(card: Proposal, id: Id, prompt: Option<string>)
    ensures AsksFor(BuildJob(card, id, prompt), id, card, prompt)
  {
    RedactPromptTokens(prompt.GetOr(card.body.draftPrompt));
  }

  predicate HasJob(outcome: ApproveOutcome) {
    outcome.RequestedNotSent? || outcome.Enqueued? || outcome.QueueGone?
  }

  lemma OutcomeAsksFor(card: Proposal, readable: bool, jobId: Id, prompt: Option<string>, io: ApproveIo)
    ensures var outcome := OutcomeOfCard(card, readable, jobId, prompt, io);
            HasJob(outcome) ==> AsksFor(outcome.job, jobId, card, prompt)
  {
    BuiltAsksFor(card, jobId, prompt);
  }

  /** The approval's rows, one after the other. */
  lemma ApproveRowsAre(log: seq<Event>, card: Proposal, job: Job, outcome: ApproveOutcome, io: ApproveIo)
    requires outcome in {RequestedNotSent(job), Enqueued(job), QueueGone(job)}
    ensures var failure := if outcome.QueueGone? && io.failureWritten then [FailureRow(job, Unknown)] else [];
            log + [CardRow(Approve, WithStatus(card, Approved))] + [JobRow(Requested, job)] + failure
            == log + ApproveRows(Newest(card), outcome, io)
  {
    var approval, request := [CardRow(Approve, WithStatus(card, Approved))], [JobRow(Requested, job)];
    Associate(log, approval, request);
    if outcome.QueueGone? {
      Associate(log, approval + request, if io.failureWritten then [FailureRow(job, Unknown)] else []);
    }
  }

  /** How one execution meets the outside world: which writes succeed and what the
      sandboxed process does. */
  datatype Exit = Success | Failure(reason: JobFailure) | TimedOut | PollError

  datatype Fate = Fate(
    opens: bool, beginWritten: bool, setupOk: bool, launchWritten: bool, logsOk: bool, spawned: bool,
    exit: Exit, artifactWritten: bool, endWritten: bool)

  /** The reason recorded when the runner itself ends the job in failure. */
  function FailureOf(fate: Fate): Option<JobFailure> {
    if !fate.setupOk then Some(Unknown)
    else if !fate.launchWritten || !fate.logsOk then None
    else if !fate.spawned then Some(CliNotFound)
    else match fate.exit
      case Failure(reason) => Some(reason)
      case TimedOut => Some(Timeout)
      case _ => None
  }

  predicate Runs(fate: Fate) { fate.opens && fate.beginWritten }

  predicate Launches(fate: Fate) { Runs(fate) && fate.setupOk && fate.launchWritten }

  predicate Files(fate: Fate) {
    Launches(fate) && fate.logsOk && fate.spawned && fate.exit.Success? && fate.artifactWritten
  }

  /** The runner reaches its terminal append and the append succeeds. */
  predicate Ends(fate: Fate) {
    fate.endWritten && (Files(fate) || (Runs(fate) && FailureOf(fate).Some?))
  }

  /** The row that ends the job in the runner's own hands: completed after a run that
      succeeded, otherwise failed, with the reason of the way it failed. */
  ghost predicate EndsBy(e: Event, job: Job, fate: Fate) {
    && e.meeting == job.body.meeting && e.body.JobEvent? && e.body.job.Good?
    && e.body.job.value.id == job.id && SameOrder(e.body.job.value.body, job.body)
    && var after := e.body.job.value.body;
       if fate.setupOk && fate.spawned && fate.exit.Success? then
         e.body.kind == Complete && after.status == Completed && after.failure == job.body.failure
       else
         && e.body.kind == Fail && after.status == JobStatus.Failed
         && (!fate.setupOk ==> after.failure == Some(Unknown))
         && (fate.setupOk && !fate.spawned ==> after.failure == Some(CliNotFound))
         && (fate.setupOk && fate.spawned && fate.exit.TimedOut? ==> after.failure == Some(Timeout))
         && (fate.setupOk && fate.spawned && fate.exit.Failure? ==> after.failure == Some(fate.exit.reason))
  }

  lemma EndRowEnds(log: seq<Event>, job: Job, artifact: Id, fate: Fate)
    requires Ends(fate)
    ensures var after := log + RunRows(job, artifact, fate, false);
            |after| > |log| && EndsBy(after[|after| - 1], job, fate)
  {
    var before := StartRows(job, fate) + LaunchRows(job, fate) + FileRows(job, artifact, fate);
    var last := EndRows(job, fate, false);
    assert log + RunRows(job, artifact, fate, false) == log + before + last && |last| == 1;
    assert EndsBy(last[0], job, fate);
  }

  function StartRows(job: Job, fate: Fate): seq<Event> {
    if !Runs(fate) then []
    else
      var running := job.(body := job.body.(status := Running, note := Some("preparing sandbox")));
      [Event(job.body.meeting, JobEvent(JobVerb.Started, Good(running)))]
  }

  function LaunchRows(job: Job, fate: Fate): seq<Event> {
    if !Launches(fate) then []
    else
      var running := job.(body := job.body.(status := Running, note := Some("sandbox ready")));
      [Event(job.body.meeting, JobEvent(Progress, Good(running)))]
  }

  function FileRows(job: Job, artifact: Id, fate: Fate): seq<Event> {
    if Files(fate) then [Event(job.body.meeting, ArtifactCreated(Good(Artifact(artifact, job.id))))] else []
  }

  /** The row that ends the job: the runner's own, or else the daemon's failure row if
      that can be written. */
  function EndRows(job: Job, fate: Fate, fallbackWritten: bool): seq<Event> {
    if Ends(fate) && Files(fate) then
      var done := job.(body := job.body.(status := Completed, note := Some("worker completed")));
      [Event(job.body.meeting, JobEvent(Complete, Good(done)))]
    else if Ends(fate) then [FailedRow(job, FailureOf(fate).value)]
    else if fallbackWritten then [FailedRow(job, Unknown)]
    else []
  }

  /** The rows one execution leaves, in order. */
  function RunRows(job: Job, artifact: Id, fate: Fate, fallbackWritten: bool): seq<Event> {
    StartRows(job, fate) + LaunchRows(job, fate) + FileRows(job, artifact, fate) + EndRows(job, fate, fallbackWritten)
  }

  // ---- Recovery, with the worker already at work -------------------------------------------

  /** Which of recovery's inputs go wrong: jobs whose stale worker could not be ended,
      and jobs for which the queue turned out to be closed. */
  datatype Mishaps = Mishaps(stuck: set<Id>, closed: set<Id>)

  const RECOVERED := "recovered after daemon restart"

  /** The job as if new: queued, with nothing left of how it fared before. */
  function AsNew(job: Job, note: string): Job {
    job.(body := job.body.(status := Queued, note := Some(note), failure := None, receipt := None))
  }

  function RecoveryRows(job: Job, m: Mishaps, note: string): seq<Event> {
    if job.id in m.stuck then [FailedRow(AsNew(job, RECOVERED), Unknown)]
    else
      [Event(job.body.meeting, JobEvent(Progress, Good(AsNew(job, note))))]
      + (if job.id in m.closed then [FailedRow(AsNew(job, note), Unknown)] else [])
  }

  function Requeued(job: Job, m: Mishaps, note: string): seq<Job> {
    if job.id in m.stuck || job.id in m.closed then [] else [AsNew(job, note)]
  }

  /** One turn the worker takes, if there is a job for it. */
  datatype Turn = Turn(artifact: Id, fate: Fate, fallbackWritten: bool)

  /** What has come of a boot so far. */
  datatype Boots = Boots(rows: seq<Event>, queue: seq<Job>, dropped: set<Id>)

  function AfterTurn(b: Boots, turn: Turn): Boots {
    if b.queue == [] then b
    else
      var job := b.queue[0];
      Boots(b.rows + RunRows(job, turn.artifact, turn.fate, turn.fallbackWritten), b.queue[1..],
            b.dropped + (if Ends(turn.fate) || turn.fallbackWritten then {} else {job.id}))
  }

  function AfterTurns(b: Boots, turns: seq<Turn>): Boots {
    if turns == [] then b else AfterTurn(AfterTurns(b, turns[..|turns| - 1]), turns[|turns| - 1])
  }

  function AfterJob(b: Boots, job: Job, m: Mishaps, note: string): Boots {
    Boots(b.rows + RecoveryRows(job, m, note), b.queue + Requeued(job, m, note), b.dropped)
  }

  /** Recovery takes the jobs in order; after the i-th the worker takes turns(i). */
  function AfterJobs(jobs: seq<Job>, m: Mishaps, note: string, turns: nat -> seq<Turn>): Boots {
    if jobs == [] then Boots([], [], {})
    else
      var n := |jobs| - 1;
      AfterTurns(AfterJob(AfterJobs(jobs[..n], m, note, turns), jobs[n], m, note), turns(n))
  }

  lemma {:induction false} TurnsKeepRows(b: Boots, turns: seq<Turn>)
    ensures b.rows <= AfterTurns(b, turns).rows
  {
    if turns != [] {
      TurnsKeepRows(b, turns[..|turns| - 1]);
    }
  }

  lemma JobThenTurns(b: Boots, job: Job, m: Mishaps, note: string, turns: seq<Turn>)
    ensures b.rows + RecoveryRows(job, m, note) <= AfterTurns(AfterJob(b, job, m, note), turns).rows
  {
    TurnsKeepRows(AfterJob(b, job, m, note), turns);
  }

  lemma PrefixThrough(a: seq<Event>, b: seq<Event>, c: seq<Event>, d: seq<Event>)
    requires a <= b && b + c <= d
    ensures a <= d
  {
  }

  /** However the worker comes between, each job's own recovery rows are written, after
      all that came of the jobs before it. */
  lemma {:induction false} EachJobRecovered(jobs: seq<Job>, m: Mishaps, note: string, turns: nat -> seq<Turn>, i: nat)
    requires i < |jobs|
    ensures AfterJobs(jobs[..i], m, note, turns).rows + RecoveryRows(jobs[i], m, note)
            <= AfterJobs(jobs, m, note, turns).rows
  {
    var n := |jobs| - 1;
    var before := AfterJobs(jobs[..n], m, note, turns);
    JobThenTurns(before, jobs[n], m, note, turns(n));
    if i < n {
      EachJobRecovered(jobs[..n], m, note, turns, i);
      assert jobs[..n][..i] == jobs[..i] && jobs[..n][i] == jobs[i];
      PrefixThrough(AfterJobs(jobs[..i], m, note, turns).rows + RecoveryRows(jobs[i], m, note), before.rows,
                    RecoveryRows(jobs[n], m, note), AfterJobs(jobs, m, note, turns).rows);
    }
  }

  lemma AfterJobsNext(jobs: seq<Job>, m: Mishaps, note: string, turns: nat -> seq<Turn>, i: nat)
    requires i < |jobs|
    ensures AfterJobs(jobs[..i + 1], m, note, turns)
            == AfterTurns(AfterJob(AfterJobs(jobs[..i], m, note, turns), jobs[i], m, note), turns(i))
    ensures jobs[i..] != [] && jobs[i..][0] == jobs[i] && jobs[i..][1..] == jobs[i + 1..]
  {
    assert jobs[..i + 1][..i] == jobs[..i];
  }

  class Daemon {
    const store: EventStore
    var queue: seq<Job>
    ghost var phase: JobProtocol.Daemon
    ghost var runner: Runner               // the worker task's own state
    ghost var approving: Option<Proposal>  // the request handlers' own state
    ghost var checking: Option<Job>
    ghost var unsent: seq<Job>
    ghost var dropped: set<Id>
    ghost var stranded: set<Id>
    ghost var orphaned: multiset<Id>
    ghost var steps: seq<Step>

    ghost function View(): State
      reads this, store
    {
      State(store.events, phase, queue, runner, approving, checking, unsent, dropped, stranded, orphaned)
    }

    /** The daemon's state is the one its history of protocol steps leads to. */
    ghost predicate Valid()
      reads this, store
    {
      Feasible(steps) && After(steps) == View()
    }

    /** A request handler can take the store lock, whatever the worker is doing. */
    ghost predicate Unlocked()
      reads this
    {
      phase == Serving && approving.None? && checking.None?
    }

    /** What has come of a boot that started from the given ledger. */
    ghost predicate Shows(log: seq<Event>, b: Boots)
      reads this, store
    {
      store.events == log + b.rows && queue == b.queue && dropped == b.dropped
    }

    constructor ()
      ensures Valid() && fresh(store)
      ensures View() == INITIAL
    {
      store := new EventStore();
      queue := [];
      phase, runner, approving, checking, unsent := Down, Resting, None, None, [];
      dropped, stranded, orphaned, steps := {}, {}, multiset{}, [];
    }

    /** Record a step already carried out on the fields. */
    ghost method Took(before: State, step: Step)
      requires Feasible(steps) && After(steps) == before
      requires Enabled(before, step) && Do(before, step) == View()
      modifies this`steps
      ensures Valid() && steps == old(steps) + [step]
    {
      Extend(steps, step);
      steps := steps + [step];
    }

    /** Everything in memory is gone; the ledger stays. */
    method CrashNow()
      requires Valid() && phase != Down
      modifies this
      ensures Valid() && old(steps) <= steps
      ensures phase == Down && queue == [] && store.events == old(store.events)
    {
      ghost var before := View();
      ghost var after := Do(before, Crash);
      queue := [];
      phase, runner, approving, checking, unsent := Down, Resting, None, None, [];
      dropped, stranded, orphaned := {}, {}, after.orphaned;
      assert View() == after;
      Took(before, Crash);
    }

    /** A row from elsewhere lands in the ledger: of another kind, or one that does not
        decode. */
    method ForeignRow(e: Event)
      requires Valid() && Outside(store.events, e.body)
      modifies this`steps, store
      ensures Valid() && old(steps) <= steps && store.events == old(store.events) + [e]
    {
      ghost var before := View();
      store.Append(e.meeting, e.body);
      Took(before, Foreign(e));
    }

    // ---- Recovery ------------------------------------------------------------------------

    /** Boot: the worker loop is up before recovery re-queues the recoverable jobs, and
        may work some off before recovery is done with the others. */
    method Recover(m: Mishaps, note: string, turns: nat -> seq<Turn>)
      requires Valid() && phase == Down
      modifies this, store
      ensures Valid() && old(steps) <= steps && Unlocked() && runner == Resting && unsent == [] && stranded == {}
      ensures Shows(old(store.events), AfterJobs(Recoverable(old(store.events)), m, note, turns))
    {
      var jobs := StartBoot();
      RecoverAll(jobs, m, note, turns);
      EndBoot();
    }

    method RecoverAll(jobs: seq<Job>, m: Mishaps, note: string, turns: nat -> seq<Turn>)
      requires Valid() && phase == Recovering(jobs, None) && runner == Resting && queue == [] && dropped == {}
      modifies this`queue, this`phase, this`runner, this`dropped, this`steps, store
      ensures Valid() && old(steps) <= steps && phase == Recovering([], None) && runner == Resting
      ensures Shows(old(store.events), AfterJobs(jobs, m, note, turns))
    {
      ghost var log := store.events;
      for i := 0 to |jobs|
        invariant Valid() && old(steps) <= steps && phase == Recovering(jobs[i..], None) && runner == Resting
        invariant Shows(log, AfterJobs(jobs[..i], m, note, turns))
      {
        AfterJobsNext(jobs, m, note, turns, i);
        RecoverNext(log, AfterJobs(jobs[..i], m, note, turns), jobs[i], m, note, turns(i));
      }
      assert jobs[..|jobs|] == jobs && jobs[|jobs|..] == [];
    }

    /** Recover the next job, then let the worker take its turns. */
    method RecoverNext(ghost log: seq<Event>, ghost b: Boots, job: Job, m: Mishaps, note: string, turns: seq<Turn>)
      requires Valid() && phase.Recovering? && phase.hand.None? && phase.todo != [] && phase.todo[0] == job
      requires runner == Resting && Shows(log, b)
      modifies this`queue, this`phase, this`runner, this`dropped, this`steps, store
      ensures Valid() && old(steps) <= steps && runner == Resting
      ensures phase == Recovering(old(phase).todo[1..], None)
      ensures Shows(log, AfterTurns(AfterJob(b, job, m, note), turns))
    {
      Associate(log, b.rows, RecoveryRows(job, m, note));
      RecoverOne(job, m, note);
      TakeTurns(log, AfterJob(b, job, m, note), turns);
    }

    /** The worker takes its turns, as long as there are jobs. */
    method TakeTurns(ghost log: seq<Event>, ghost b: Boots, turns: seq<Turn>)
      requires Valid() && phase != Down && runner == Resting
      requires Shows(log, b)
      modifies this`queue, this`runner, this`dropped, this`steps, store
      ensures Valid() && old(steps) <= steps && runner == Resting
      ensures Shows(log, AfterTurns(b, turns))
    {
      for i := 0 to |turns|
        invariant Valid() && old(steps) <= steps && runner == Resting
        invariant Shows(log, AfterTurns(b, turns[..i]))
      {
        assert turns[..i + 1][..i] == turns[..i];
        if queue != [] {
          var turn := turns[i];
          Associate(log, AfterTurns(b, turns[..i]).rows,
                    RunRows(queue[0], turn.artifact, turn.fate, turn.fallbackWritten));
          WorkerTurn(turn.artifact, turn.fate, turn.fallbackWritten);
        }
      }
      assert turns[..|turns|] == turns;
    }

    method EndBoot()
      requires Valid() && phase == Recovering([], None)
      modifies this`phase, this`steps
      ensures Valid() && old(steps) <= steps && phase == Serving
    {
      ghost var before := View();
      phase := Serving;
      Took(before, Serve);
    }

    method StartBoot() returns (jobs: seq<Job>)
      requires Valid() && phase == Down
      modifies this
      ensures Valid() && old(steps) <= steps
      ensures jobs == Recoverable(store.events) && phase == Recovering(jobs, None)
      ensures queue == [] && runner == Resting && approving.None? && checking.None? && unsent == []
      ensures dropped == {} && stranded == {}
    {
      InvAlways(steps);
      ghost var before := View();
      jobs := store.RecoverableJobs();
      phase := Recovering(jobs, None);
      Took(before, Boot);
    }

    /** One turn of the recovery loop, whatever the worker is doing. */
    method RecoverOne(job: Job, m: Mishaps, note: string)
      requires Valid() && phase.Recovering? && phase.hand.None? && phase.todo != [] && phase.todo[0] == job
      modifies this`queue, this`phase, this`steps, store
      ensures Valid() && old(steps) <= steps
      ensures phase == Recovering(old(phase).todo[1..], None)
      ensures store.events == old(store.events) + RecoveryRows(job, m, note)
      ensures queue == old(queue) + Requeued(job, m, note)
    {
      if job.id in m.stuck {
        FailStale(job);
      } else {
        var recovered := TakeInHand(job, note);
        HandOverRecovered(recovered, job.id !in m.closed);
      }
    }

    /** Its stale workers survive: the job fails. */
    method FailStale(job: Job)
      requires Valid() && phase.Recovering? && phase.hand.None? && phase.todo != [] && phase.todo[0] == job
      modifies this`phase, this`steps, store
      ensures Valid() && old(steps) <= steps
      ensures phase == Recovering(old(phase).todo[1..], None)
      ensures store.events == old(store.events) + [FailureRow(MarkRecovered(job, RECOVERED), Unknown)]
    {
      ghost var before := View();
      store.Append(job.body.meeting, JobEvent(Fail, Good(MarkFailed(MarkRecovered(job, RECOVERED), Unknown))));
      phase := Recovering(phase.todo[1..], None);
      Took(before, RecoverFails);
    }

    /** They are gone: the job is marked queued again. */
    method TakeInHand(job: Job, note: string) returns (recovered: Job)
      requires Valid() && phase.Recovering? && phase.hand.None? && phase.todo != [] && phase.todo[0] == job
      modifies this`phase, this`steps, store
      ensures Valid() && old(steps) <= steps && recovered == MarkRecovered(job, note)
      ensures phase == Recovering(old(phase).todo[1..], Some(recovered))
      ensures store.events == old(store.events) + [JobRow(Progress, recovered)]
    {
      ghost var before := View();
      recovered := MarkRecovered(job, note);
      store.Append(job.body.meeting, JobEvent(Progress, Good(recovered)));
      phase := Recovering(phase.todo[1..], Some(recovered));
      Took(before, Step.Recover(note));
    }

    /** Send the recovered job, or record its failure if the queue is closed. */
    method HandOverRecovered(job: Job, open: bool)
      requires Valid() && phase.Recovering? && phase.hand == Some(job)
      modifies this`queue, this`phase, this`steps, store
      ensures Valid() && old(steps) <= steps
      ensures phase == Recovering(old(phase).todo, None)
      ensures queue == old(queue) + (if open then [job] else [])
      ensures store.events == old(store.events) + (if open then [] else [FailureRow(job, Unknown)])
    {
      ghost var before := View();
      if open {
        queue := queue + [job];
        phase := Recovering(phase.todo, None);
        Took(before, RecoverSend);
      } else {
        store.Append(job.body.meeting, JobEvent(Fail, Good(MarkFailed(job, Unknown))));
        phase := Recovering(phase.todo, None);
        Took(before, RecoverSendFails);
      }
    }

    // ---- Request handlers ------------------------------------------------------------------

    /** Record a new suggestion. */
    method CreateCard(card: Proposal)
      requires Valid() && Unlocked() && card.body.status == Proposed && CardUnseen(store.events, card.id)
      modifies this`steps, store
      ensures Valid() && steps == old(steps) + [Step.CreateCard(card)]
      ensures store.events == old(store.events) + [CardRow(Created, card)]
    {
      ghost var before := View();
      store.Append(card.body.meeting, ProposalEvent(Created, Good(card)));
      Took(before, Step.CreateCard(card));
    }

    method IgnoreCard(id: Id) returns (r: Found)
      requires Valid() && Unlocked()
      modifies this`steps, store
      ensures Valid() && old(steps) <= steps
      ensures r == FindLatest(old(store.events), id)
      ensures store.events == old(store.events)
              + (if !r.Newest? then []
                 else
                   var ignored := r.proposal.(body := r.proposal.body.(status := Ignored));
                   [Event(r.proposal.body.meeting, ProposalEvent(Ignore, Good(ignored)))])
    {
      r := store.FindLatestProposal(id);
      if r.Newest? {
        ghost var before := View();
        var card := WithStatus(r.proposal, Ignored);
        store.Append(card.body.meeting, ProposalEvent(Ignore, Good(card)));
        Took(before, Step.IgnoreCard(id));
      }
    }

    /** The approval handler: two appends and the reply's projection under the lock, then
        the send. With both rows written and the queue open the job is queued if and only
        if the card's meeting decodes. Jobs running, or still being sent by other
        handlers, stay as they are. */
    method ApproveCard(id: Id, jobId: Id, prompt: Option<string>, io: ApproveIo) returns (outcome: ApproveOutcome)
      requires Valid() && Unlocked() && JobUnseen(store.events, jobId)
      modifies this`queue, this`approving, this`checking, this`unsent
      modifies this`dropped, this`stranded, this`orphaned, this`steps, store
      ensures Valid() && old(steps) <= steps && Unlocked() && unsent == old(unsent)
      ensures outcome == OutcomeOf(old(store.events), id, jobId, prompt, io)
      ensures HasJob(outcome) ==>
                AsksFor(outcome.job, jobId, FindLatest(old(store.events), id).proposal, prompt)
      ensures store.events == old(store.events) + ApproveRows(FindLatest(old(store.events), id), outcome, io)
      ensures queue == old(queue) + (if outcome.Enqueued? then [outcome.job] else [])
      ensures dropped == old(dropped) + (if outcome.QueueGone? && !io.failureWritten then {outcome.job.id} else {})
      ensures stranded == old(stranded) + (if outcome.RequestedNotSent? then {outcome.job.id} else {})
      ensures orphaned == old(orphaned) + (if outcome.ApprovedWithoutJob? then multiset{id} else multiset{})
    {
      ghost var log := store.events;
      outcome := Decide(id, jobId, prompt, io);
      if FindLatest(log, id).Newest? {
        OutcomeAsksFor(FindLatest(log, id).proposal, CardReadable(log, id), jobId, prompt, io);
      }
    }

    /** The handler itself, up to what the job it built asks for. */
    method Decide(id: Id, jobId: Id, prompt: Option<string>, io: ApproveIo) returns (outcome: ApproveOutcome)
      requires Valid() && Unlocked() && JobUnseen(store.events, jobId)
      modifies this`queue, this`approving, this`checking, this`unsent
      modifies this`dropped, this`stranded, this`orphaned, this`steps, store
      ensures Valid() && old(steps) <= steps && Unlocked() && unsent == old(unsent)
      ensures outcome == OutcomeOf(old(store.events), id, jobId, prompt, io)
      ensures store.events == old(store.events) + ApproveRows(FindLatest(old(store.events), id), outcome, io)
      ensures queue == old(queue) + (if outcome.Enqueued? then [outcome.job] else [])
      ensures dropped == old(dropped) + (if outcome.QueueGone? && !io.failureWritten then {outcome.job.id} else {})
      ensures stranded == old(stranded) + (if outcome.RequestedNotSent? then {outcome.job.id} else {})
      ensures orphaned == old(orphaned) + (if outcome.ApprovedWithoutJob? then multiset{id} else multiset{})
    {
      var found := store.FindLatestProposal(id);
      if !found.Newest? {
        return if found == Unreadable then Undecodable else NotFound;
      }
      var card := found.proposal;
      if card.body.status == Approved || !io.approvalWritten {
        return if card.body.status == Approved then AlreadyApproved else NotRecorded;
      }
      ghost var log := store.events;
      WriteApproval(id, card, jobId);
      outcome := FinishApproval(log, card, jobId, prompt, io);
    }

    /** From the approval row on: write the job row, project the reply, send the job. */
    method FinishApproval(ghost log: seq<Event>, card: Proposal, jobId: Id, prompt: Option<string>, io: ApproveIo)
      returns (outcome: ApproveOutcome)
      requires Valid() && phase == Serving && approving == Some(card) && checking.None?
      requires JobUnseen(store.events, jobId)
      requires store.events == log + [CardRow(Approve, WithStatus(card, Approved))]
      requires card.body.status != Approved && io.approvalWritten
      modifies this`queue, this`approving, this`checking, this`unsent
      modifies this`dropped, this`stranded, this`orphaned, this`steps, store
      ensures Valid() && old(steps) <= steps && Unlocked() && unsent == old(unsent)
      ensures outcome == OutcomeOfCard(card, AllReadable(Of(log, card.body.meeting)), jobId, prompt, io)
      ensures store.events == log + ApproveRows(Newest(card), outcome, io)
      ensures queue == old(queue) + (if outcome.Enqueued? then [outcome.job] else [])
      ensures dropped == old(dropped) + (if outcome.QueueGone? && !io.failureWritten then {outcome.job.id} else {})
      ensures stranded == old(stranded) + (if outcome.RequestedNotSent? then {outcome.job.id} else {})
      ensures orphaned == old(orphaned) + (if outcome.ApprovedWithoutJob? then multiset{card.id} else multiset{})
    {
      if io.requestWritten {
        outcome := FinishRequested(log, card, jobId, prompt, io);
      } else {
        AbandonApproval(card);
        outcome := ApprovedWithoutJob;
      }
    }

    method FinishRequested(ghost log: seq<Event>, card: Proposal, jobId: Id, prompt: Option<string>, io: ApproveIo)
      returns (outcome: ApproveOutcome)
      requires Valid() && phase == Serving && approving == Some(card) && checking.None?
      requires JobUnseen(store.events, jobId)
      requires store.events == log + [CardRow(Approve, WithStatus(card, Approved))]
      modifies this`queue, this`approving, this`checking, this`unsent
      modifies this`dropped, this`stranded, this`steps, store
      ensures Valid() && old(steps) <= steps && Unlocked() && unsent == old(unsent)
      ensures var job := BuildJob(card, jobId, prompt);
              outcome == if !AllReadable(Of(log, card.body.meeting)) then RequestedNotSent(job)
                         else if io.sent then Enqueued(job) else QueueGone(job)
      ensures store.events == log + ApproveRows(Newest(card), outcome, io)
      ensures queue == old(queue) + (if outcome.Enqueued? then [outcome.job] else [])
      ensures dropped == old(dropped) + (if outcome.QueueGone? && !io.failureWritten then {outcome.job.id} else {})
      ensures stranded == old(stranded) + (if outcome.RequestedNotSent? then {outcome.job.id} else {})
    {
      var job, answered := RequestAndReply(log, card, jobId, prompt);
      outcome := Conclude(job, answered, io, old(unsent));
      ApproveRowsAre(log, card, job, outcome, io);
    }

    /** With a reply the job is sent; without one the handler is already done. */
    method Conclude(job: Job, answered: bool, io: ApproveIo, ghost others: seq<Job>) returns (outcome: ApproveOutcome)
      requires Valid() && Unlocked() && unsent == others + (if answered then [job] else [])
      modifies this`queue, this`unsent, this`dropped, this`steps, store
      ensures Valid() && old(steps) <= steps && unsent == others
      ensures outcome == if !answered then RequestedNotSent(job)
                         else if io.sent then Enqueued(job) else QueueGone(job)
      ensures store.events == old(store.events)
                              + (if outcome.QueueGone? && io.failureWritten then [FailureRow(job, Unknown)] else [])
      ensures queue == old(queue) + (if outcome.Enqueued? then [job] else [])
      ensures dropped == old(dropped) + (if outcome.QueueGone? && !io.failureWritten then {job.id} else {})
    {
      if answered {
        outcome := SendOrFail(job, io);
      } else {
        outcome := RequestedNotSent(job);
      }
    }

    method RequestAndReply(ghost log: seq<Event>, card: Proposal, jobId: Id, prompt: Option<string>)
      returns (job: Job, answered: bool)
      requires Valid() && phase == Serving && approving == Some(card) && checking.None?
      requires JobUnseen(store.events, jobId)
      requires store.events == log + [CardRow(Approve, WithStatus(card, Approved))]
      modifies this`approving, this`checking, this`unsent, this`stranded, this`steps, store
      ensures Valid() && old(steps) <= steps && approving.None? && checking.None?
      ensures job == BuildJob(card, jobId, prompt) && (answered <==> AllReadable(Of(log, card.body.meeting)))
      ensures store.events == old(store.events) + [JobRow(Requested, job)]
      ensures unsent == old(unsent) + (if answered then [job] else [])
      ensures stranded == old(stranded) + (if answered then {} else {job.id})
    {
      job := Request(card, jobId, prompt);
      TwoReadable(log, CardRow(Approve, WithStatus(card, Approved)), JobRow(Requested, job), card.body.meeting);
      answered := ProjectReply(job);
    }

    /** Outside the lock: send the job, or record that the queue is gone. */
    method SendOrFail(job: Job, io: ApproveIo) returns (outcome: ApproveOutcome)
      requires Valid() && Unlocked() && unsent != [] && unsent[|unsent| - 1] == job
      modifies this`queue, this`unsent, this`dropped, this`steps, store
      ensures Valid() && old(steps) <= steps && unsent == old(unsent)[..|old(unsent)| - 1]
      ensures outcome == if io.sent then Enqueued(job) else QueueGone(job)
      ensures store.events == old(store.events)
                              + (if !io.sent && io.failureWritten then [FailureRow(job, Unknown)] else [])
      ensures queue == old(queue) + (if io.sent then [job] else [])
      ensures dropped == old(dropped) + (if !io.sent && !io.failureWritten then {job.id} else {})
    {
      if io.sent {
        SendLast(job);
        outcome := Enqueued(job);
      } else {
        FailLast(job, io.failureWritten);
        outcome := QueueGone(job);
      }
    }

    method WriteApproval(id: Id, card: Proposal, ghost jobId: Id)
      requires JobUnseen(store.events, jobId)
      requires Valid() && Unlocked() && FindLatest(store.events, id) == Newest(card) && card.body.status != Approved
      modifies this`approving, this`steps, store
      ensures Valid() && old(steps) <= steps
      ensures approving == Some(card) && card.id == id && JobUnseen(store.events, jobId)
      ensures store.events == old(store.events) + [CardRow(Approve, WithStatus(card, Approved))]
    {
      ghost var before := View();
      FindLatestSeen(store.events, id);
      store.Append(card.body.meeting, ProposalEvent(Approve, Good(WithStatus(card, Approved))));
      approving := Some(card);
      Took(before, Step.ApproveCard(id));
    }

    /** The job row could not be written: the handler returns an error. */
    method AbandonApproval(card: Proposal)
      requires Valid() && phase == Serving && approving == Some(card)
      modifies this`approving, this`orphaned, this`steps
      ensures Valid() && old(steps) <= steps && approving.None?
      ensures orphaned == old(orphaned) + multiset{card.id}
    {
      ghost var before := View();
      approving := None;
      orphaned := orphaned + multiset{card.id};
      Took(before, RequestFails);
    }

    /** The second append of an approval: the queued job. */
    method Request(card: Proposal, jobId: Id, prompt: Option<string>) returns (job: Job)
      requires Valid() && phase == Serving && approving == Some(card) && checking.None?
      requires JobUnseen(store.events, jobId)
      modifies this`approving, this`checking, this`steps, store
      ensures Valid() && old(steps) <= steps
      ensures job == BuildJob(card, jobId, prompt) && approving.None? && checking == Some(job)
      ensures store.events == old(store.events) + [JobRow(Requested, job)]
    {
      ghost var before := View();
      job := BuildJob(card, jobId, prompt);
      store.Append(job.body.meeting, JobEvent(Requested, Good(job)));
      approving := None;
      checking := Some(job);
      Took(before, RequestJob(jobId, prompt));
    }

    /** The handler projects the meeting for its reply. If it does not decode the handler
        returns an error there and then, and the job is stranded. */
    method ProjectReply(job: Job) returns (answered: bool)
      requires Valid() && phase == Serving && checking == Some(job)
      modifies this`checking, this`unsent, this`stranded, this`steps
      ensures Valid() && old(steps) <= steps && checking.None?
      ensures answered <==> AllReadable(Of(store.events, job.body.meeting))
      ensures unsent == old(unsent) + (if answered then [job] else [])
      ensures stranded == old(stranded) + (if answered then {} else {job.id})
    {
      ProjectsFinals(store.events, job.body.meeting);
      var reply := store.Projection(job.body.meeting);
      answered := reply.Some?;
      if answered {
        HaveReply(job);
      } else {
        GiveUp(job);
      }
    }

    method HaveReply(job: Job)
      requires Valid() && phase == Serving && checking == Some(job)
      requires AllReadable(Of(store.events, job.body.meeting))
      modifies this`checking, this`unsent, this`steps
      ensures Valid() && old(steps) <= steps && checking.None? && unsent == old(unsent) + [job]
    {
      ghost var before := View();
      checking := None;
      unsent := unsent + [job];
      Took(before, Answer);
    }

    method GiveUp(job: Job)
      requires Valid() && phase == Serving && checking == Some(job)
      requires !AllReadable(Of(store.events, job.body.meeting))
      modifies this`checking, this`stranded, this`steps
      ensures Valid() && old(steps) <= steps && checking.None? && stranded == old(stranded) + {job.id}
    {
      ghost var before := View();
      checking := None;
      stranded := stranded + {job.id};
      Took(before, AnswerFails);
    }

    method SendLast(job: Job)
      requires Valid() && phase == Serving && unsent != [] && unsent[|unsent| - 1] == job
      modifies this`queue, this`unsent, this`steps
      ensures Valid() && old(steps) <= steps
      ensures queue == old(queue) + [job] && unsent == old(unsent)[..|old(unsent)| - 1]
    {
      ghost var before := View();
      queue := queue + [job];
      unsent := unsent[..|unsent| - 1];
      assert unsent == Without(before.unsent, |before.unsent| - 1);
      Took(before, Send(|before.unsent| - 1));
    }

    /** The worker queue is closed: the job is failed instead of sent. */
    method FailLast(job: Job, written: bool)
      requires Valid() && Unlocked() && unsent != [] && unsent[|unsent| - 1] == job
      modifies this`unsent, this`dropped, this`steps, store
      ensures Valid() && old(steps) <= steps
      ensures store.events == old(store.events) + (if written then [FailureRow(job, Unknown)] else [])
      ensures dropped == old(dropped) + (if written then {} else {job.id})
      ensures unsent == old(unsent)[..|old(unsent)| - 1]
    {
      ghost var before := View();
      if written {
        store.Append(job.body.meeting, JobEvent(Fail, Good(MarkFailed(job, Unknown))));
      } else {
        dropped := dropped + {job.id};
      }
      unsent := unsent[..|unsent| - 1];
      assert unsent == Without(before.unsent, |before.unsent| - 1);
      Took(before, SendFails(|before.unsent| - 1, written));
    }

    // ---- The worker --------------------------------------------------------------------------

    /** `run_job`: the rows of one execution; false when it returns an error. */
    method RunJob(job: Job, artifact: Id, fate: Fate) returns (ended: bool)
      requires Valid() && phase != Down && runner == Busy(job, Received)
      modifies this`runner, this`steps, store
      ensures Valid() && old(steps) <= steps
      ensures ended <==> Ends(fate)
      ensures if ended then runner == Resting else runner.Busy? && runner.job == job && runner.phase != Errored
      ensures store.events == old(store.events) + RunRows(job, artifact, fate, false)
      ensures ended ==> |store.events| > |old(store.events)| && EndsBy(store.events[|store.events| - 1], job, fate)
    {
      ghost var log := store.events;
      ended := Attempt(job, artifact, fate);
      if ended {
        EndRowEnds(log, job, artifact, fate);
      }
    }

    /** The execution itself, up to what its last row says. */
    method Attempt(job: Job, artifact: Id, fate: Fate) returns (ended: bool)
      requires Valid() && phase != Down && runner == Busy(job, Received)
      modifies this`runner, this`steps, store
      ensures Valid() && old(steps) <= steps
      ensures ended <==> Ends(fate)
      ensures if ended then runner == Resting else runner.Busy? && runner.job == job && runner.phase != Errored
      ensures store.events == old(store.events) + RunRows(job, artifact, fate, false)
    {
      if !fate.opens || !fate.beginWritten {
        return false;
      }
      BeginRun(job);
      ended := SetUp(job, artifact, fate);
    }

    /** From the started row on: set up the sandbox, then launch. */
    method SetUp(job: Job, artifact: Id, fate: Fate) returns (ended: bool)
      requires Valid() && phase != Down && runner == Busy(job, Begun) && Runs(fate)
      modifies this`runner, this`steps, store
      ensures Valid() && old(steps) <= steps
      ensures ended <==> Ends(fate)
      ensures if ended then runner == Resting else runner.Busy? && runner.job == job && runner.phase != Errored
      ensures store.events == old(store.events) + LaunchRows(job, fate) + FileRows(job, artifact, fate)
              + EndRows(job, fate, false)
    {
      if !fate.setupOk {
        ended := FinishFailed(job, Unknown, fate.endWritten);
        return;
      }
      if !fate.launchWritten {
        return false;
      }
      LaunchRun(job);
      ended := Supervise(job, artifact, fate);
    }

    /** From the launch row on: spawn the process and act on how it ends. */
    method Supervise(job: Job, artifact: Id, fate: Fate) returns (ended: bool)
      requires Valid() && phase != Down && runner == Busy(job, Launched) && Launches(fate)
      modifies this`runner, this`steps, store
      ensures Valid() && old(steps) <= steps
      ensures ended <==> Ends(fate)
      ensures if ended then runner == Resting else runner.Busy? && runner.job == job && runner.phase != Errored
      ensures store.events == old(store.events) + FileRows(job, artifact, fate) + EndRows(job, fate, false)
    {
      if !fate.logsOk {
        return false;
      }
      if !fate.spawned {
        ended := FinishFailed(job, CliNotFound, fate.endWritten);
        return;
      }
      match fate.exit {
        case PollError => return false;
        case TimedOut => ended := FinishFailed(job, Timeout, fate.endWritten);
        case Failure(reason) => ended := FinishFailed(job, reason, fate.endWritten);
        case Success =>
          if !fate.artifactWritten {
            return false;
          }
          FileArtifact(job, artifact);
          ended := FinishDone(job, fate.endWritten);
      }
    }

    method BeginRun(job: Job)
      requires Valid() && phase != Down && runner == Busy(job, Received)
      modifies this`runner, this`steps, store
      ensures Valid() && old(steps) <= steps && runner == Busy(job, Begun)
      ensures store.events == old(store.events) + [JobRow(JobVerb.Started, MarkRunning(job, "preparing sandbox"))]
    {
      ghost var before := View();
      store.Append(job.body.meeting, JobEvent(JobVerb.Started, Good(MarkRunning(job, "preparing sandbox"))));
      runner := Busy(job, Begun);
      Took(before, Begin);
    }

    method LaunchRun(job: Job)
      requires Valid() && phase != Down && runner == Busy(job, Begun)
      modifies this`runner, this`steps, store
      ensures Valid() && old(steps) <= steps && runner == Busy(job, Launched)
      ensures store.events == old(store.events) + [JobRow(Progress, MarkRunning(job, "sandbox ready"))]
    {
      ghost var before := View();
      store.Append(job.body.meeting, JobEvent(Progress, Good(MarkRunning(job, "sandbox ready"))));
      runner := Busy(job, Launched);
      Took(before, Launch);
    }

    method FileArtifact(job: Job, artifact: Id)
      requires Valid() && phase != Down && runner == Busy(job, Launched)
      modifies this`runner, this`steps, store
      ensures Valid() && old(steps) <= steps && runner == Busy(job, Filed)
      ensures store.events == old(store.events)
              + [Event(job.body.meeting, ArtifactCreated(Good(Artifact(artifact, job.id))))]
    {
      ghost var before := View();
      store.Append(job.body.meeting, ArtifactCreated(Good(Artifact(artifact, job.id))));
      runner := Busy(job, Filed);
      Took(before, File(artifact));
    }

    method FinishDone(job: Job, written: bool) returns (ended: bool)
      requires Valid() && phase != Down && runner == Busy(job, Filed)
      modifies this`runner, this`steps, store
      ensures Valid() && old(steps) <= steps
      ensures ended == written && runner == if written then Resting else old(runner)
      ensures store.events == old(store.events) + if written then [JobRow(Complete, MarkDone(job))] else []
    {
      if written {
        ghost var before := View();
        store.Append(job.body.meeting, JobEvent(Complete, Good(MarkDone(job))));
        runner := Resting;
        Took(before, Finish);
      }
      ended := written;
    }

    method FinishFailed(job: Job, reason: JobFailure, written: bool) returns (ended: bool)
      requires Valid() && phase != Down && (runner == Busy(job, Begun) || runner == Busy(job, Launched))
      modifies this`runner, this`steps, store
      ensures Valid() && old(steps) <= steps
      ensures ended == written && runner == if written then Resting else old(runner)
      ensures store.events == old(store.events) + if written then [FailureRow(job, reason)] else []
    {
      if written {
        ghost var before := View();
        store.Append(job.body.meeting, JobEvent(Fail, Good(MarkFailed(job, reason))));
        runner := Resting;
        Took(before, FailRun(reason));
      }
      ended := written;
    }

    /** One turn of the worker loop, while recovery or request handlers are under way or
        not: take a job, run it, and turn an error into a failure row. Afterwards the job
        is over, or it could not be recorded and stays recoverable. */
    method WorkerTurn(artifact: Id, fate: Fate, fallbackWritten: bool)
      requires Valid() && phase != Down && runner == Resting && queue != []
      modifies this`queue, this`runner, this`dropped, this`steps, store
      ensures Valid() && old(steps) <= steps && runner == Resting
      ensures queue == old(queue)[1..]
      ensures store.events == old(store.events) + RunRows(old(queue)[0], artifact, fate, fallbackWritten)
      ensures dropped == old(dropped) + (if Ends(fate) || fallbackWritten then {} else {old(queue)[0].id})
      ensures (Count(store.events, TerminalOf(old(queue)[0].id)) == 1)
              != Has(Recoverable(store.events), old(queue)[0].id)
    {
      HeldInView();
      ghost var id := queue[0].id;
      RecordedStays(store.events, RunRows(queue[0], artifact, fate, fallbackWritten), id);
      var job := ReceiveJob();
      Execute(job, artifact, fate, fallbackWritten);
      NoJobLost(steps, id);
    }

    /** Run the received job; an error becomes a failure row. */
    method Execute(job: Job, artifact: Id, fate: Fate, fallbackWritten: bool)
      requires Valid() && phase != Down && runner == Busy(job, Received)
      modifies this`runner, this`steps, this`dropped, store
      ensures Valid() && old(steps) <= steps && runner == Resting
      ensures store.events == old(store.events) + RunRows(job, artifact, fate, fallbackWritten)
      ensures dropped == old(dropped) + (if Ends(fate) || fallbackWritten then {} else {job.id})
    {
      var ended := RunJob(job, artifact, fate);
      if !ended {
        RunnerErrs(job);
        FallBack(job, fallbackWritten);
      }
    }

    /** The runner returned an error or panicked. */
    ghost method RunnerErrs(job: Job)
      requires Valid() && phase != Down && runner.Busy? && runner.job == job && runner.phase != Errored
      modifies this`runner, this`steps
      ensures Valid() && old(steps) <= steps && runner == Busy(job, Errored)
    {
      ghost var before := View();
      runner := Busy(job, Errored);
      Took(before, Err);
    }

    method ReceiveJob() returns (job: Job)
      requires Valid() && phase != Down && runner == Resting && queue != []
      modifies this`queue, this`runner, this`steps
      ensures Valid() && old(steps) <= steps
      ensures job == old(queue)[0] && runner == Busy(job, Received) && queue == old(queue)[1..]
    {
      ghost var before := View();
      job := queue[0];
      runner := Busy(job, Received);
      queue := queue[1..];
      Took(before, Receive);
    }

    /** The runner failed to end its job: the daemon writes the failure itself. */
    method FallBack(job: Job, written: bool)
      requires Valid() && phase != Down && runner == Busy(job, Errored)
      modifies this`runner, this`steps, this`dropped, store
      ensures Valid() && old(steps) <= steps && runner == Resting
      ensures store.events == old(store.events) + (if written then [FailureRow(job, Unknown)] else [])
      ensures dropped == old(dropped) + (if written then {} else {job.id})
    {
      ghost var before := View();
      if written {
        store.Append(job.body.meeting, JobEvent(Fail, Good(MarkFailed(job, Unknown))));
      } else {
        dropped := dropped + {job.id};
      }
      runner := Resting;
      Took(before, Fallback(written));
    }

    /** Whoever is in the middle of what: the recoverable jobs are those in the daemon's
        hands, dropped or stranded; with nobody at work those in its hands are the queue. */
    lemma QueueIsRecoverable(id: Id)
      requires Valid() && phase != Down
      ensures Has(Recoverable(store.events), id) <==> Has(Held(View()), id) || id in dropped || id in stranded
      ensures Unlocked() && runner == Resting && unsent == [] ==> Held(View()) == queue
    {
      RecoverableIsHeld(steps, id);
    }

    /** The ledger has a row about the queue's head. */
    lemma HeldInView()
      requires Valid() && queue != []
      ensures Recorded(store.events, queue[0].id)
    {
      InvAlways(steps);
      assert queue[0] in Held(View());
      HeldIsRecoverable(View(), queue[0]);
      RecoverableIsOpen(store.events, queue[0].id);
    }
  }
}
