/** The life of a job across approval, queue, runner, crash and restart, as a state
    machine whose every step is one append or one hand-over. */
module JobProtocol {
  import opened Domain
  import opened KeyedList
  import opened Replay
  import opened Readers
  import opened Redaction

  /** How far the runner has taken its job. */
  datatype Phase =
    | Received   // taken from the queue, nothing written yet
    | Begun      // agent_job.started is in the ledger
    | Launched   // the launch progress row is in the ledger
    | Filed      // the artifact row is in the ledger, completion is not
    | Errored    // the runner returned an error or panicked; the fallback is due

  datatype Runner = Resting | Busy(job: Job, phase: Phase)

  /** Down after a crash; recovering holds the jobs still to be re-queued and the
      one whose progress row is written but which is not yet sent. */
  datatype Daemon = Down | Recovering(todo: seq<Job>, hand: Option<Job>) | Serving

  datatype State = State(
    log: seq<Event>,
    daemon: Daemon,
    queue: seq<Job>,
    runner: Runner,
    approving: Option<Proposal>,  // approval row written, job row not: the store lock is held
    checking: Option<Job>,        // job row written, reply not yet projected: the lock is still held
    unsent: seq<Job>,             // reply projected, not yet sent to the queue
    dropped: set<Id>,             // history: failure row could not be written since the last boot
    stranded: set<Id>,            // history: handler gave up after the job row since the last boot
    orphaned: multiset<Id>)       // history: cards whose approval never got its job row

  const INITIAL := State([], Down, [], Resting, None, None, [], {}, {}, multiset{})

  // ---- The job values that get written ----------------------------------------------

  function JobRow(kind: JobVerb, job: Job): Event {
    Event(job.body.meeting, JobEvent(kind, Good(job)))
  }

  function CardRow(verb: ProposalVerb, card: Proposal): Event {
    Event(card.body.meeting, ProposalEvent(verb, Good(card)))
  }

  function WithStatus(card: Proposal, status: ProposalStatus): Proposal {
    card.(body := card.body.(status := status))
  }

  function BuildJob(card: Proposal, id: Id, promptOverride: Option<string>): Job {
    Keyed(id, JobBody(card.body.meeting, Some(card.id), RedactPrompt(promptOverride.GetOr(card.body.draftPrompt)),
                      5, EvidenceIds(card.body.evidence), Queued, None, None, None))
  }

  function MarkRecovered(job: Job, note: string): Job {
    job.(body := job.body.(status := Queued, note := Some(note), failure := None, receipt := None))
  }

  function MarkRunning(job: Job, note: string): Job {
    job.(body := job.body.(status := Running, note := Some(note)))
  }

  function MarkFailed(job: Job, reason: JobFailure): Job {
    job.(body := job.body.(status := JobStatus.Failed, failure := Some(reason)))
  }

  function MarkDone(job: Job): Job {
    job.(body := job.body.(status := Completed, note := Some("worker completed")))
  }

  function FailureRow(job: Job, reason: JobFailure): Event {
    JobRow(Fail, MarkFailed(job, reason))
  }

  // ---- Steps ---------------------------------------------------------------------------

  datatype Step =
    | Boot
    | Recover(note: string)        // stale workers are gone: write progress, take the job in hand
    | RecoverFails                 // stale workers survive: write a failure
    | RecoverSend
    | RecoverSendFails
    | Serve
    | Crash
    | CreateCard(card: Proposal)
    | IgnoreCard(id: Id)
    | ApproveCard(id: Id)
    | RequestJob(job: Id, prompt: Option<string>)
    | RequestFails
    | Answer                       // the meeting decodes: the handler has its reply and may send
    | AnswerFails                  // it does not: the handler returns an error without sending
    | Send(i: nat)
    | SendFails(i: nat, written: bool)
    | Receive
    | Begin
    | Launch
    | File(artifact: Id)
    | Finish
    | FailRun(reason: JobFailure)
    | Err
    | Fallback(written: bool)
    | Foreign(e: Event)            // a row from elsewhere: of another kind, or undecodable

  /** No row speaks of the job. */
  predicate JobUnseen(log: seq<Event>, id: Id) {
    forall e | e in log :: !SpeaksOf(e.body, id)
  }

  /** No decodable job, card or artifact row; and a terminal job row that still shows an
      id shows one that is no job's. */
  predicate Outside(log: seq<Event>, b: Body) {
    match b
    case JobEvent(_, Good(_)) => false
    case JobEvent(kind, Bad(Some(id))) => kind.Terminal() ==> JobUnseen(log, id)
    case ProposalEvent(_, payload) => payload.Bad?
    case ArtifactCreated(payload) => payload.Bad?
    case _ => true
  }

  predicate CardUnseen(log: seq<Event>, id: Id) {
    forall e | e in log && e.body.ProposalEvent? && e.body.proposal.Good? :: e.body.proposal.value.id != id
  }

  /** The store lock can be taken. */
  predicate Free(s: State) { s.daemon == Serving && s.approving.None? && s.checking.None? }

  predicate Enabled(s: State, step: Step) {
    match step
    case Boot => s.daemon == Down
    case Recover(_) => s.daemon.Recovering? && s.daemon.hand.None? && s.daemon.todo != []
    case RecoverFails => s.daemon.Recovering? && s.daemon.hand.None? && s.daemon.todo != []
    case RecoverSend => s.daemon.Recovering? && s.daemon.hand.Some?
    case RecoverSendFails => s.daemon.Recovering? && s.daemon.hand.Some?
    case Serve => s.daemon.Recovering? && s.daemon.hand.None? && s.daemon.todo == []
    case Crash => s.daemon != Down
    case CreateCard(card) => Free(s) && card.body.status == Proposed && CardUnseen(s.log, card.id)
    case IgnoreCard(id) => Free(s) && FindLatest(s.log, id).Newest?
    case ApproveCard(id) =>
      Free(s) && FindLatest(s.log, id).Newest? && FindLatest(s.log, id).proposal.body.status != Approved
    case RequestJob(job, _) =>
      s.daemon == Serving && s.approving.Some? && s.checking.None? && JobUnseen(s.log, job)
    case RequestFails => s.daemon == Serving && s.approving.Some?
    case Answer =>
      s.daemon == Serving && s.checking.Some? && AllReadable(Of(s.log, s.checking.value.body.meeting))
    case AnswerFails =>
      s.daemon == Serving && s.checking.Some? && !AllReadable(Of(s.log, s.checking.value.body.meeting))
    case Send(i) => s.daemon == Serving && i < |s.unsent|
    case SendFails(i, _) => Free(s) && i < |s.unsent|
    case Receive => s.daemon != Down && s.runner == Resting && s.queue != []
    case Begin => s.daemon != Down && s.runner.Busy? && s.runner.phase == Received
    case Launch => s.daemon != Down && s.runner.Busy? && s.runner.phase == Begun
    case File(_) => s.daemon != Down && s.runner.Busy? && s.runner.phase == Launched
    case Finish => s.daemon != Down && s.runner.Busy? && s.runner.phase == Filed
    case FailRun(_) => s.daemon != Down && s.runner.Busy? && (s.runner.phase == Begun || s.runner.phase == Launched)
    case Err => s.daemon != Down && s.runner.Busy? && s.runner.phase != Errored
    case Fallback(_) => s.daemon != Down && s.runner.Busy? && s.runner.phase == Errored
    case Foreign(e) => Outside(s.log, e.body)
  }

  function Write(s: State, e: Event): State {
    s.(log := s.log + [e])
  }

  function Without(jobs: seq<Job>, i: nat): seq<Job>
    requires i < |jobs|
  {
    jobs[..i] + jobs[i + 1..]
  }

  function Do(s: State, step: Step): State
    requires Enabled(s, step)
  {
    match step
    case Boot => s.(daemon := Recovering(Recoverable(s.log), None))
    case Recover(note) =>
      var job := MarkRecovered(s.daemon.todo[0], note);
      Write(s, JobRow(Progress, job)).(daemon := Recovering(s.daemon.todo[1..], Some(job)))
    case RecoverFails =>
      var job := MarkRecovered(s.daemon.todo[0], "recovered after daemon restart");
      Write(s, FailureRow(job, Unknown)).(daemon := Recovering(s.daemon.todo[1..], None))
    case RecoverSend =>
      s.(queue := s.queue + [s.daemon.hand.value], daemon := Recovering(s.daemon.todo, None))
    case RecoverSendFails =>
      Write(s, FailureRow(s.daemon.hand.value, Unknown)).(daemon := Recovering(s.daemon.todo, None))
    case Serve => s.(daemon := Serving)
    case Crash =>
      State(s.log, Down, [], Resting, None, None, [], {}, {},
            if s.approving.Some? then s.orphaned + multiset{s.approving.value.id} else s.orphaned)
    case CreateCard(card) => Write(s, CardRow(Created, card))
    case IgnoreCard(id) => Write(s, CardRow(Ignore, WithStatus(FindLatest(s.log, id).proposal, Ignored)))
    case ApproveCard(id) =>
      var card := FindLatest(s.log, id).proposal;
      Write(s, CardRow(Approve, WithStatus(card, Approved))).(approving := Some(card))
    case RequestJob(id, prompt) =>
      var job := BuildJob(s.approving.value, id, prompt);
      Write(s, JobRow(Requested, job)).(approving := None, checking := Some(job))
    case RequestFails => s.(approving := None, orphaned := s.orphaned + multiset{s.approving.value.id})
    case Answer => s.(checking := None, unsent := s.unsent + [s.checking.value])
    case AnswerFails => s.(checking := None, stranded := s.stranded + {s.checking.value.id})
    case Send(i) => s.(queue := s.queue + [s.unsent[i]], unsent := Without(s.unsent, i))
    case SendFails(i, written) =>
      var job := s.unsent[i];
      if written then Write(s, FailureRow(job, Unknown)).(unsent := Without(s.unsent, i))
      else s.(unsent := Without(s.unsent, i), dropped := s.dropped + {job.id})
    case Receive => s.(runner := Busy(s.queue[0], Received), queue := s.queue[1..])
    case Begin =>
      Write(s, JobRow(JobVerb.Started, MarkRunning(s.runner.job, "preparing sandbox")))
      .(runner := Busy(s.runner.job, Begun))
    case Launch =>
      Write(s, JobRow(Progress, MarkRunning(s.runner.job, "sandbox ready"))).(runner := Busy(s.runner.job, Launched))
    case File(artifact) =>
      Write(s, Event(s.runner.job.body.meeting, ArtifactCreated(Good(Artifact(artifact, s.runner.job.id)))))
        .(runner := Busy(s.runner.job, Filed))
    case Finish => Write(s, JobRow(Complete, MarkDone(s.runner.job))).(runner := Resting)
    case FailRun(reason) => Write(s, FailureRow(s.runner.job, reason)).(runner := Resting)
    case Err => s.(runner := Busy(s.runner.job, Errored))
    case Fallback(written) =>
      if written then Write(s, FailureRow(s.runner.job, Unknown)).(runner := Resting)
      else s.(runner := Resting, dropped := s.dropped + {s.runner.job.id})
    case Foreign(e) => Write(s, e)
  }

  // ---- Runs ----------------------------------------------------------------------------

  /** A schedule is feasible when every step was enabled where it was taken. */
  ghost predicate Feasible(steps: seq<Step>)
    decreases |steps|, 0
  {
    steps == []
    || (Feasible(steps[..|steps| - 1]) && Enabled(After(steps[..|steps| - 1]), steps[|steps| - 1]))
  }

  ghost function After(steps: seq<Step>): State
    requires Feasible(steps)
    decreases |steps|, 1
  {
    if steps == [] then INITIAL
    else Do(After(steps[..|steps| - 1]), steps[|steps| - 1])
  }

  lemma Extend(steps: seq<Step>, step: Step)
    requires Feasible(steps) && Enabled(After(steps), step)
    ensures Feasible(steps + [step]) && After(steps + [step]) == Do(After(steps), step)
  {
    assert (steps + [step])[..|steps|] == steps;
  }
}
