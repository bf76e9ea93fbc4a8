/** What every run of the job protocol keeps, with any number of crashes. */
module JobSafety {
  import opened Domain
  import opened KeyedList
  import opened Replay
  import opened Readers
  import opened Redaction
  import opened JobProtocol

  // ---- How often an id is held -------------------------------------------------------

  function Tally(jobs: seq<Job>, id: Id): nat {
    if jobs == [] then 0 else (if jobs[0].id == id then 1 else 0) + Tally(jobs[1..], id)
  }

  lemma {:induction false} TallyAppend(a: seq<Job>, b: seq<Job>, id: Id)
    ensures Tally(a + b, id) == Tally(a, id) + Tally(b, id)
  {
    if a == [] {
      assert a + b == b;
    } else {
      TallyAppend(a[1..], b, id);
      assert (a + b)[1..] == a[1..] + b;
    }
  }

  lemma TallyWithout(jobs: seq<Job>, i: nat, id: Id)
    requires i < |jobs|
    ensures Tally(jobs, id) == Tally(Without(jobs, i), id) + (if jobs[i].id == id then 1 else 0)
  {
    TallyAppend(jobs[..i], jobs[i + 1..], id);
    TallyAppend(jobs[..i], jobs[i..], id);
    assert jobs == jobs[..i] + jobs[i..];
    assert jobs[i..][1..] == jobs[i + 1..];
  }

  lemma {:induction false} TallyHas(jobs: seq<Job>, id: Id)
    ensures Tally(jobs, id) > 0 <==> Has(jobs, id)
    ensures Distinct(jobs) ==> Tally(jobs, id) <= 1
  {
    if jobs != [] {
      TallyHas(jobs[1..], id);
      HasSplit(jobs, id);
      if Distinct(jobs) && jobs[0].id == id {
        assert !Has(jobs[1..], id);
      }
    }
  }

  // ---- The invariant -----------------------------------------------------------------

  /** Jobs the daemon holds in memory, wherever they are. */
  function Held(s: State): seq<Job> {
    (if s.daemon.Recovering? then s.daemon.todo + (if s.daemon.hand.Some? then [s.daemon.hand.value] else []) else [])
    + s.queue
    + (if s.runner.Busy? then [s.runner.job] else [])
    + s.unsent
    + (if s.checking.Some? then [s.checking.value] else [])
  }

  /** The two values ask for the same work, whatever has become of it. */
  predicate SameOrder(a: JobBody, b: JobBody) {
    && a.meeting == b.meeting && a.proposal == b.proposal && a.prompt == b.prompt
    && a.maxMinutes == b.maxMinutes && a.spans == b.spans
  }

  /** Every row about the job agrees with it on the work asked for. */
  ghost predicate Faithful(log: seq<Event>, job: Job) {
    forall e | e in log && About(e, job.id) :: SameOrder(e.body.job.value.body, job.body)
  }

  /** Any two rows about one job agree, and only redacted prompts are written. */
  ghost predicate Consistent(log: seq<Event>) {
    forall e | e in log && e.body.JobEvent? && e.body.job.Good? ::
      && Faithful(log, e.body.job.value)
      && RedactPrompt(e.body.job.value.body.prompt) == e.body.job.value.body.prompt
  }

  ghost predicate HeldFaithfully(s: State) {
    forall job | job in Held(s) ::
      Faithful(s.log, job) && RedactPrompt(job.body.prompt) == job.body.prompt
  }

  function TimesKept(s: State, id: Id): nat {
    Tally(Held(s), id) + (if id in s.dropped then 1 else 0) + (if id in s.stranded then 1 else 0)
  }

  /** What recovery would return is exactly what the daemon holds, has dropped or has
      stranded, each id once. */
  ghost predicate Exact(s: State) {
    if s.daemon == Down then
      && Held(s) == [] && s.dropped == {} && s.stranded == {} && s.runner == Resting
      && s.unsent == [] && s.queue == [] && s.approving.None? && s.checking.None?
    else forall id :: TimesKept(s, id) == (if Has(Recoverable(s.log), id) then 1 else 0)
  }

  ghost predicate Inv(s: State) {
    Settled(s.log) && Consistent(s.log) && HeldFaithfully(s) && Exact(s)
  }

  // ---- Appending rows ------------------------------------------------------------------

  lemma RecoverableAppend(log: seq<Event>, e: Event)
    ensures Recoverable(log + [e]) == RecoveryStep(Recoverable(log), e.body)
  {
    assert (log + [e])[..|log|] == log;
  }

  /** A recoverable job has no terminal row. */
  lemma RecoverableIsOpen(log: seq<Event>, id: Id)
    requires Settled(log) && Has(Recoverable(log), id)
    ensures exists e :: e in log && About(e, id)
    ensures forall e | e in log && About(e, id) :: !e.body.kind.Terminal()
  {
    RecoverableExactly(log, id);
    var k :| LastWord(log, id, k) && SaysLive(log[k].body);
    assert log[k] in log && About(log[k], id);
    forall e | e in log && About(e, id) ensures !e.body.kind.Terminal() {
      var i :| 0 <= i < |log| && log[i] == e;
      if i < k {
        assert About(log[i], id) && About(log[k], id);
      } else if i > k {
        assert !SpeaksOf(log[i].body, id);
      }
    }
  }

  lemma NotDamaged(log: seq<Event>, id: Id)
    requires Settled(log) && (Has(Recoverable(log), id) || JobUnseen(log, id))
    ensures forall e | e in log :: !Damaged(e, id)
  {
    if Has(Recoverable(log), id) {
      RecoverableIsOpen(log, id);
    }
  }

  /** A new row about a held job keeps the ledger settled and consistent. */
  lemma AppendSettled(log: seq<Event>, kind: JobVerb, job: Job)
    requires Settled(log) && Consistent(log)
    requires Faithful(log, job) && RedactPrompt(job.body.prompt) == job.body.prompt
    requires Has(Recoverable(log), job.id) || JobUnseen(log, job.id)
    requires kind.Terminal() <==> !job.body.status.Live()
    ensures Settled(log + [JobRow(kind, job)])
  {
    var row := JobRow(kind, job);
    var after := log + [row];
    if Has(Recoverable(log), job.id) {
      RecoverableIsOpen(log, job.id);
    }
    forall e | e in after ensures ProperJobRow(e) {
      assert e in log || e == row;
    }
    forall a, b, id | a in after && b in after && Damaged(a, id) ensures !About(b, id) {
      assert (a in log || a == row) && (b in log || b == row);
      if b == row && id == job.id {
        NotDamaged(log, job.id);
      }
    }
    forall i, j, id | 0 <= i < j < |after| && About(after[i], id) && About(after[j], id)
      ensures !after[i].body.kind.Terminal() && after[i].meeting == after[j].meeting
    {
      assert after[i] == log[i] && after[i] in log;
      if j < |log| {
        assert after[j] == log[j];
      } else {
        assert id == job.id;
        assert ProperJobRow(after[i]);
      }
    }
  }

  lemma AppendConsistent(log: seq<Event>, kind: JobVerb, job: Job)
    requires Consistent(log)
    requires Faithful(log, job) && RedactPrompt(job.body.prompt) == job.body.prompt
    ensures Consistent(log + [JobRow(kind, job)])
  {
    var row := JobRow(kind, job);
    var after := log + [row];
    forall e | e in after && e.body.JobEvent? && e.body.job.Good?
      ensures Faithful(after, e.body.job.value)
      ensures RedactPrompt(e.body.job.value.body.prompt) == e.body.job.value.body.prompt
    {
      assert e in log || e == row;
      forall other | other in after && About(other, e.body.job.value.id)
        ensures SameOrder(other.body.job.value.body, e.body.job.value.body)
      {
        assert other in log || other == row;
        if e in log && other == row {
          assert About(e, job.id);
        }
      }
    }
  }

  /** A faithful job stays so when another job is written, or the same work again. */
  lemma AppendFaithful(log: seq<Event>, kind: JobVerb, job: Job, held: Job)
    requires Faithful(log, held)
    requires held.id == job.id ==> SameOrder(held.body, job.body)
    ensures Faithful(log + [JobRow(kind, job)], held)
  {
    var row := JobRow(kind, job);
    forall e | e in log + [row] && About(e, held.id)
      ensures SameOrder(e.body.job.value.body, held.body)
    {
      assert e in log || e == row;
    }
  }

  /** Two faithful jobs under one id that has rows agree with each other. */
  lemma FaithfulAgree(log: seq<Event>, a: Job, b: Job)
    requires Faithful(log, a) && Faithful(log, b) && a.id == b.id
    requires exists e :: e in log && About(e, a.id)
    ensures SameOrder(a.body, b.body)
  {
  }

  /** A row that is no decodable job row, and names no job's id if it is a terminal one. */
  predicate NoJob(log: seq<Event>, b: Body) {
    b.JobEvent? ==> b.job.Bad? && Outside(log, b)
  }

  lemma UnseenHasNoRow(log: seq<Event>, id: Id)
    requires JobUnseen(log, id)
    ensures forall e | e in log :: !About(e, id)
  {
    forall e | e in log ensures !About(e, id) {
      assert !SpeaksOf(e.body, id);
    }
  }

  lemma AppendOther(log: seq<Event>, e: Event)
    requires Settled(log) && Consistent(log) && NoJob(log, e.body)
    ensures Settled(log + [e]) && Consistent(log + [e]) && Recoverable(log + [e]) == Recoverable(log)
    ensures forall job | Faithful(log, job) :: Faithful(log + [e], job)
  {
    var after := log + [e];
    assert forall x | x in after :: x in log || x == e;
    OtherSettled(log, e);
    NoJobRow(after);
    assert after[..|log|] == log;
  }

  lemma OtherSettled(log: seq<Event>, e: Event)
    requires Settled(log) && NoJob(log, e.body)
    ensures Settled(log + [e])
  {
    var after := log + [e];
    forall a, b, id | a in after && b in after && Damaged(a, id) ensures !About(b, id) {
      assert (a in log || a == e) && (b in log || b == e);
      if a == e {
        UnseenHasNoRow(log, id);
      }
    }
    forall i, j, id | 0 <= i < j < |after| && About(after[i], id) && About(after[j], id)
      ensures !after[i].body.kind.Terminal() && after[i].meeting == after[j].meeting
    {
      assert after[i] == log[i] && after[j] == log[j];
    }
  }

  // ---- The invariant over one step --------------------------------------------------------

  lemma HeldTally(s: State, id: Id)
    ensures Tally(Held(s), id) ==
            (if s.daemon.Recovering? then Tally(s.daemon.todo, id) else 0)
            + (if s.daemon.Recovering? && s.daemon.hand.Some? && s.daemon.hand.value.id == id then 1 else 0)
            + Tally(s.queue, id)
            + (if s.runner.Busy? && s.runner.job.id == id then 1 else 0)
            + Tally(s.unsent, id)
            + (if s.checking.Some? && s.checking.value.id == id then 1 else 0)
  {
    var hand: seq<Job> := if s.daemon.Recovering? && s.daemon.hand.Some? then [s.daemon.hand.value] else [];
    var boot := if s.daemon.Recovering? then s.daemon.todo + hand else [];
    var run := if s.runner.Busy? then [s.runner.job] else [];
    if s.daemon.Recovering? { TallyAppend(s.daemon.todo, hand, id); }
    TallyAppend(boot, s.queue, id);
    TallyAppend(boot + s.queue, run, id);
    var check := if s.checking.Some? then [s.checking.value] else [];
    TallyAppend(boot + s.queue + run, s.unsent, id);
    TallyAppend(boot + s.queue + run + s.unsent, check, id);
    assert Held(s) == boot + s.queue + run + s.unsent + check;
  }

  lemma HeldIsRecoverable(s: State, job: Job)
    requires Inv(s) && job in Held(s)
    ensures s.daemon != Down
    ensures Has(Recoverable(s.log), job.id)
    ensures Tally(Held(s), job.id) == 1 && job.id !in s.dropped && job.id !in s.stranded
  {
    var i :| 0 <= i < |Held(s)| && Held(s)[i] == job;
    assert Has(Held(s), job.id);
    TallyHas(Held(s), job.id);
    assert TimesKept(s, job.id) <= 1;
  }

  /** The rows about a held job leave every other id's recoverability alone. */
  lemma WriteRecoverable(log: seq<Event>, kind: JobVerb, job: Job, id: Id)
    requires kind.Terminal() <==> !job.body.status.Live()
    ensures Has(Recoverable(log + [JobRow(kind, job)]), id) <==>
            if id == job.id then !kind.Terminal() else Has(Recoverable(log), id)
  {
    RecoverableAppend(log, JobRow(kind, job));
    RecoverableExactly(log, id);
    RecoveryStepFacts(Recoverable(log), JobRow(kind, job).body, id);
  }

  lemma WriteFaithful(s: State, held: Job, kind: JobVerb, job: Job, x: Job)
    requires Inv(s) && held in Held(s) && (x in Held(s) || x == job)
    requires SameWork(job, held)
    ensures Faithful(s.log + [JobRow(kind, job)], x) && RedactPrompt(x.body.prompt) == x.body.prompt
  {
    HeldIsRecoverable(s, held);
    RecoverableIsOpen(s.log, job.id);
    if x in Held(s) && x.id == job.id {
      FaithfulAgree(s.log, x, held);
    }
    AppendFaithful(s.log, kind, job, x);
  }

  /** The two values are the same job in different states. */
  predicate SameWork(a: Job, b: Job) {
    a.id == b.id && SameOrder(a.body, b.body)
  }

  /** Writing a row about a held job, with what stays held afterwards. */
  lemma WriteHeld(s: State, held: Job, kind: JobVerb, job: Job, t: State)
    requires Inv(s) && held in Held(s) && SameWork(job, held)
    requires kind.Terminal() <==> !job.body.status.Live()
    requires t.log == s.log + [JobRow(kind, job)] && t.daemon != Down
    requires t.dropped == s.dropped && t.stranded == s.stranded
    requires forall x | x in Held(t) :: x in Held(s) || x == job
    requires forall id :: Tally(Held(t), id) + (if kind.Terminal() && id == job.id then 1 else 0) == Tally(Held(s), id)
    ensures Inv(t)
  {
    HeldIsRecoverable(s, held);
    AppendSettled(s.log, kind, job);
    AppendConsistent(s.log, kind, job);
    forall x | x in Held(t)
      ensures Faithful(t.log, x) && RedactPrompt(x.body.prompt) == x.body.prompt
    {
      WriteFaithful(s, held, kind, job, x);
    }
    forall id ensures TimesKept(t, id) == (if Has(Recoverable(t.log), id) then 1 else 0) {
      WriteRecoverable(s.log, kind, job, id);
      assert TimesKept(s, id) == (if Has(Recoverable(s.log), id) then 1 else 0);
    }
  }

  /** Moving held jobs about without writing, possibly dropping one. */
  lemma MoveHeld(s: State, t: State)
    requires Inv(s) && t.log == s.log && s.daemon != Down && t.daemon != Down
    requires forall x | x in Held(t) :: x in Held(s)
    requires forall id :: TimesKept(t, id) == TimesKept(s, id)
    ensures Inv(t)
  {
  }

  lemma WriteOther(s: State, e: Event, t: State)
    requires Inv(s) && NoJob(s.log, e.body)
    requires t.log == s.log + [e] && t.dropped == s.dropped && t.stranded == s.stranded && Held(t) == Held(s)
    requires t.daemon == s.daemon && t.queue == s.queue && t.unsent == s.unsent
    requires s.daemon == Down ==> t == s.(log := t.log)
    ensures Inv(t)
  {
    AppendOther(s.log, e);
  }

  /** The runner's job is held; letting go of it takes one from its tally only. */
  lemma RunnerTally(s: State, t: State)
    requires s.runner.Busy? && t.daemon == s.daemon && t.queue == s.queue
    requires t.unsent == s.unsent && t.checking == s.checking
    requires t.runner.Busy? ==> t.runner.job == s.runner.job
    ensures s.runner.job in Held(s)
    ensures forall x | x in Held(t) :: x in Held(s)
    ensures t.runner.Busy? ==> Held(t) == Held(s)
    ensures forall id :: Tally(Held(t), id) + (if t.runner == Resting && id == s.runner.job.id then 1 else 0)
                         == Tally(Held(s), id)
  {
    forall id
      ensures Tally(Held(t), id) + (if t.runner == Resting && id == s.runner.job.id then 1 else 0)
              == Tally(Held(s), id)
    {
      HeldTally(s, id);
      HeldTally(t, id);
    }
  }

  lemma WorkerWrites(s: State, kind: JobVerb, job: Job, runner: Runner)
    requires Inv(s) && s.daemon != Down && s.runner.Busy? && SameWork(job, s.runner.job)
    requires kind.Terminal() <==> !job.body.status.Live()
    requires if kind.Terminal() then runner == Resting else runner.Busy? && runner.job == s.runner.job
    ensures Inv(Write(s, JobRow(kind, job)).(runner := runner))
  {
    var t := Write(s, JobRow(kind, job)).(runner := runner);
    RunnerTally(s, t);
    WriteHeld(s, s.runner.job, kind, job, t);
  }

  lemma WorkerMoves(s: State, runner: Runner, dropped: set<Id>)
    requires Inv(s) && s.daemon != Down && s.runner.Busy?
    requires if runner.Busy? then runner.job == s.runner.job && dropped == s.dropped
             else dropped == s.dropped + {s.runner.job.id}
    ensures Inv(s.(runner := runner, dropped := dropped))
  {
    var t := s.(runner := runner, dropped := dropped);
    RunnerTally(s, t);
    HeldIsRecoverable(s, s.runner.job);
    forall id ensures TimesKept(t, id) == TimesKept(s, id) {
      assert Tally(Held(t), id) + (if t.runner == Resting && id == s.runner.job.id then 1 else 0)
             == Tally(Held(s), id);
    }
    MoveHeld(s, t);
  }

  lemma WorkerFiles(s: State, e: Event, runner: Runner)
    requires Inv(s) && s.daemon != Down && s.runner.Busy? && !e.body.JobEvent?
    requires runner.Busy? && runner.job == s.runner.job
    ensures Inv(Write(s, e).(runner := runner))
  {
    var t := Write(s, e).(runner := runner);
    RunnerTally(s, t);
    WriteOther(s, e, t);
  }

  lemma StepWorkerProgress(s: State, step: Step)
    requires Inv(s) && Enabled(s, step) && (step.Begin? || step.Launch?)
    ensures Inv(Do(s, step))
  {
    var job := s.runner.job;
    match step
    case Begin => WorkerWrites(s, JobVerb.Started, MarkRunning(job, "preparing sandbox"), Busy(job, Begun));
    case Launch => WorkerWrites(s, Progress, MarkRunning(job, "sandbox ready"), Busy(job, Launched));
  }

  lemma StepWorkerEnd(s: State, step: Step)
    requires Inv(s) && Enabled(s, step)
    requires step.Finish? || step.FailRun? || (step.Fallback? && step.written)
    ensures Inv(Do(s, step))
  {
    var job := s.runner.job;
    match step
    case Finish => WorkerWrites(s, Complete, MarkDone(job), Resting);
    case FailRun(reason) => WorkerWrites(s, Fail, MarkFailed(job, reason), Resting);
    case Fallback(_) => WorkerWrites(s, Fail, MarkFailed(job, Unknown), Resting);
  }

  lemma StepWorkerMove(s: State, step: Step)
    requires Inv(s) && Enabled(s, step)
    requires step.File? || step.Err? || (step.Fallback? && !step.written)
    ensures Inv(Do(s, step))
  {
    var job := s.runner.job;
    match step
    case File(artifact) =>
      WorkerFiles(s, Event(job.body.meeting, ArtifactCreated(Good(Artifact(artifact, job.id)))), Busy(job, Filed));
    case Err => WorkerMoves(s, Busy(job, Errored), s.dropped);
    case Fallback(_) => WorkerMoves(s, Resting, s.dropped + {job.id});
  }

  // ---- Boot and recovery steps -------------------------------------------------------------

  lemma StepBoot(s: State)
    requires Inv(s) && s.daemon == Down
    ensures Inv(Do(s, Boot))
  {
    var t := Do(s, Boot);
    var todo := Recoverable(s.log);
    assert Held(t) == todo;
    forall x | x in Held(t) ensures Faithful(t.log, x) && RedactPrompt(x.body.prompt) == x.body.prompt {
      EntriesComeFromRows(s.log, x.id);
      var k :| 0 <= k < |s.log| && About(s.log[k], x.id) && s.log[k].body.job.value == x;
      assert s.log[k] in s.log;
    }
    forall id ensures TimesKept(t, id) == (if Has(todo, id) then 1 else 0) {
      RecoverableExactly(s.log, id);
      TallyHas(todo, id);
    }
  }

  /** Recovery writes about the job at the head of its list and lets go of it or
      takes it in hand. */
  lemma RecoveryWrites(s: State, kind: JobVerb, job: Job, hand: Option<Job>)
    requires Inv(s) && s.daemon.Recovering? && s.daemon.hand.None? && s.daemon.todo != []
    requires SameWork(job, s.daemon.todo[0])
    requires kind.Terminal() <==> !job.body.status.Live()
    requires hand == if kind.Terminal() then None else Some(job)
    ensures Inv(Write(s, JobRow(kind, job)).(daemon := Recovering(s.daemon.todo[1..], hand)))
  {
    var t := Write(s, JobRow(kind, job)).(daemon := Recovering(s.daemon.todo[1..], hand));
    assert s.daemon.todo[0] in Held(s);
    forall id
      ensures Tally(Held(t), id) + (if kind.Terminal() && id == job.id then 1 else 0) == Tally(Held(s), id)
    {
      HeldTally(s, id);
      HeldTally(t, id);
    }
    WriteHeld(s, s.daemon.todo[0], kind, job, t);
  }

  lemma HandOverTally(s: State, id: Id)
    requires Inv(s) && s.daemon.Recovering? && s.daemon.hand.Some?
    ensures Tally(Held(Do(s, RecoverSend)), id) == Tally(Held(s), id)
    ensures Tally(Held(Do(s, RecoverSendFails)), id) + (if id == s.daemon.hand.value.id then 1 else 0)
            == Tally(Held(s), id)
  {
    HeldTally(s, id);
    HeldTally(Do(s, RecoverSend), id);
    HeldTally(Do(s, RecoverSendFails), id);
    TallyAppend(s.queue, [s.daemon.hand.value], id);
  }

  lemma HandOver(s: State)
    requires Inv(s) && s.daemon.Recovering? && s.daemon.hand.Some?
    ensures Inv(Do(s, RecoverSend))
  {
    var sent := Do(s, RecoverSend);
    forall id ensures TimesKept(sent, id) == TimesKept(s, id) {
      HandOverTally(s, id);
    }
    MoveHeld(s, sent);
  }

  lemma HandOverFails(s: State)
    requires Inv(s) && s.daemon.Recovering? && s.daemon.hand.Some?
    ensures Inv(Do(s, RecoverSendFails))
  {
    var job := s.daemon.hand.value;
    assert job in Held(s);
    forall id
      ensures Tally(Held(Do(s, RecoverSendFails)), id) + (if id == job.id then 1 else 0) == Tally(Held(s), id)
    {
      HandOverTally(s, id);
    }
    WriteHeld(s, job, Fail, MarkFailed(job, Unknown), Do(s, RecoverSendFails));
  }

  lemma StepDaemon(s: State, step: Step)
    requires Inv(s) && Enabled(s, step)
    requires step.Boot? || step.Recover? || step.RecoverFails? || step.RecoverSend? || step.RecoverSendFails?
             || step.Serve? || step.Crash?
    ensures Inv(Do(s, step))
  {
    match step
    case Boot => StepBoot(s);
    case Recover(note) =>
      var job := MarkRecovered(s.daemon.todo[0], note);
      RecoveryWrites(s, Progress, job, Some(job));
    case RecoverFails =>
      RecoveryWrites(s, Fail, MarkFailed(MarkRecovered(s.daemon.todo[0], "recovered after daemon restart"), Unknown),
                     None);
    case RecoverSend => HandOver(s);
    case RecoverSendFails => HandOverFails(s);
    case Serve =>
      assert Held(Do(s, Serve)) == Held(s);
      assert forall id :: TimesKept(Do(s, Serve), id) == TimesKept(s, id);
      MoveHeld(s, Do(s, Serve));
    case Crash =>
  }

  // ---- Request steps -------------------------------------------------------------------------

  /** A freshly requested job is in its handler's hands. */
  lemma NewJob(s: State, job: Job)
    requires Inv(s) && s.daemon == Serving && s.checking.None?
    requires JobUnseen(s.log, job.id) && job.body.status.Live()
    requires RedactPrompt(job.body.prompt) == job.body.prompt
    ensures Inv(Write(s, JobRow(Requested, job)).(approving := None, checking := Some(job)))
  {
    var t := Write(s, JobRow(Requested, job)).(approving := None, checking := Some(job));
    assert Faithful(s.log, job);
    AppendSettled(s.log, Requested, job);
    AppendConsistent(s.log, Requested, job);
    forall x | x in Held(t) ensures Faithful(t.log, x) && RedactPrompt(x.body.prompt) == x.body.prompt {
      NewJobFaithful(s, job, x);
    }
    forall id ensures TimesKept(t, id) == (if Has(Recoverable(t.log), id) then 1 else 0) {
      NewJobTally(s, job, id);
    }
  }

  lemma NewJobFaithful(s: State, job: Job, x: Job)
    requires Inv(s) && JobUnseen(s.log, job.id) && (x in Held(s) || x == job)
    requires RedactPrompt(job.body.prompt) == job.body.prompt
    ensures Faithful(s.log + [JobRow(Requested, job)], x) && RedactPrompt(x.body.prompt) == x.body.prompt
  {
    if x in Held(s) {
      HeldIsRecoverable(s, x);
      RecoverableIsOpen(s.log, x.id);
    }
    AppendFaithful(s.log, Requested, job, x);
  }

  lemma NewJobTally(s: State, job: Job, id: Id)
    requires Inv(s) && s.daemon == Serving && s.checking.None?
    requires JobUnseen(s.log, job.id) && job.body.status.Live()
    ensures var t := Write(s, JobRow(Requested, job)).(approving := None, checking := Some(job));
            TimesKept(t, id) == (if Has(Recoverable(t.log), id) then 1 else 0)
  {
    var t := Write(s, JobRow(Requested, job)).(approving := None, checking := Some(job));
    UnseenNotRecoverable(s.log, job.id);
    WriteRecoverable(s.log, Requested, job, id);
    HeldTally(s, id);
    HeldTally(t, id);
    assert TimesKept(s, id) == (if Has(Recoverable(s.log), id) then 1 else 0);
  }

  lemma StepRequest(s: State, id: Id, prompt: Option<string>)
    requires Inv(s) && Enabled(s, RequestJob(id, prompt))
    ensures Inv(Do(s, RequestJob(id, prompt)))
  {
    RedactPromptIdempotent(prompt.GetOr(s.approving.value.body.draftPrompt));
    NewJob(s, BuildJob(s.approving.value, id, prompt));
  }

  lemma UnseenNotRecoverable(log: seq<Event>, id: Id)
    requires JobUnseen(log, id)
    ensures !Has(Recoverable(log), id)
  {
    RecoverableExactly(log, id);
    assert forall k | 0 <= k < |log| :: log[k] in log;
  }

  lemma AnswerTally(s: State, id: Id)
    requires s.checking.Some?
    ensures TimesKept(s.(checking := None, unsent := s.unsent + [s.checking.value]), id) == TimesKept(s, id)
  {
    HeldTally(s, id);
    HeldTally(s.(checking := None, unsent := s.unsent + [s.checking.value]), id);
    TallyAppend(s.unsent, [s.checking.value], id);
  }

  /** The reply is projected: the job goes from the handler's check to the unsent ones. */
  lemma StepAnswer(s: State)
    requires Inv(s) && Enabled(s, Answer)
    ensures Inv(Do(s, Answer))
  {
    var t := Do(s, Answer);
    forall id ensures TimesKept(t, id) == TimesKept(s, id) {
      AnswerTally(s, id);
    }
    MoveHeld(s, t);
  }

  /** The reply cannot be projected: the handler gives up and the job is stranded. */
  lemma StepAnswerFails(s: State)
    requires Inv(s) && Enabled(s, AnswerFails)
    ensures Inv(Do(s, AnswerFails))
  {
    var t, job := Do(s, AnswerFails), s.checking.value;
    assert job in Held(s);
    forall id ensures Tally(Held(t), id) + (if id == job.id then 1 else 0) == Tally(Held(s), id) {
      HeldTally(s, id);
      HeldTally(t, id);
    }
    LetGo(s, t, job);
  }

  lemma UnsentTally(s: State, i: nat, id: Id)
    requires i < |s.unsent|
    ensures Tally(Held(s.(unsent := Without(s.unsent, i))), id) + (if id == s.unsent[i].id then 1 else 0)
            == Tally(Held(s), id)
    ensures Tally(Held(s.(queue := s.queue + [s.unsent[i]], unsent := Without(s.unsent, i))), id) == Tally(Held(s), id)
  {
    HeldTally(s, id);
    HeldTally(s.(unsent := Without(s.unsent, i)), id);
    HeldTally(s.(queue := s.queue + [s.unsent[i]], unsent := Without(s.unsent, i)), id);
    TallyAppend(s.queue, [s.unsent[i]], id);
    TallyWithout(s.unsent, i, id);
  }

  lemma StepSend(s: State, i: nat)
    requires Inv(s) && Enabled(s, Send(i))
    ensures Inv(Do(s, Send(i)))
  {
    var t := Do(s, Send(i));
    forall id ensures TimesKept(t, id) == TimesKept(s, id) {
      UnsentTally(s, i, id);
    }
    MoveHeld(s, t);
  }

  lemma StepSendFails(s: State, i: nat, written: bool)
    requires Inv(s) && Enabled(s, SendFails(i, written))
    ensures Inv(Do(s, SendFails(i, written)))
  {
    var t, job := Do(s, SendFails(i, written)), s.unsent[i];
    assert job in Held(s);
    forall id ensures Tally(Held(t), id) + (if id == job.id then 1 else 0) == Tally(Held(s), id) {
      UnsentTally(s, i, id);
      assert Held(t) == Held(s.(unsent := Without(s.unsent, i)));
    }
    if written {
      WriteHeld(s, job, Fail, MarkFailed(job, Unknown), t);
    } else {
      LetGo(s, t, job);
    }
  }

  /** A held job leaves the daemon's hands with no row written. */
  lemma LetGo(s: State, t: State, job: Job)
    requires Inv(s) && job in Held(s) && t.log == s.log && s.daemon != Down && t.daemon != Down
    requires || (t.dropped == s.dropped + {job.id} && t.stranded == s.stranded)
             || (t.dropped == s.dropped && t.stranded == s.stranded + {job.id})
    requires forall x | x in Held(t) :: x in Held(s)
    requires forall id :: Tally(Held(t), id) + (if id == job.id then 1 else 0) == Tally(Held(s), id)
    ensures Inv(t)
  {
    HeldIsRecoverable(s, job);
    forall id ensures TimesKept(t, id) == TimesKept(s, id) {
      assert Tally(Held(t), id) + (if id == job.id then 1 else 0) == Tally(Held(s), id);
    }
    MoveHeld(s, t);
  }

  lemma StepReceive(s: State)
    requires Inv(s) && Enabled(s, Receive)
    ensures Inv(Do(s, Receive))
  {
    var t := Do(s, Receive);
    forall id ensures TimesKept(t, id) == TimesKept(s, id) {
      HeldTally(s, id);
      HeldTally(t, id);
    }
    MoveHeld(s, t);
  }

  lemma StepCard(s: State, step: Step)
    requires Inv(s) && Enabled(s, step)
    requires step.CreateCard? || step.IgnoreCard? || step.ApproveCard? || step.RequestFails? || step.Foreign?
    ensures Inv(Do(s, step))
  {
    var t := Do(s, step);
    assert Held(t) == Held(s);
    match step
    case CreateCard(card) => WriteOther(s, CardRow(Created, card), t);
    case IgnoreCard(id) => WriteOther(s, CardRow(Ignore, WithStatus(FindLatest(s.log, id).proposal, Ignored)), t);
    case ApproveCard(id) => WriteOther(s, CardRow(Approve, WithStatus(FindLatest(s.log, id).proposal, Approved)), t);
    case RequestFails => assert forall id :: TimesKept(t, id) == TimesKept(s, id);
    case Foreign(e) => WriteOther(s, e, t);
  }

  /** The invariant is inductive. */
  lemma {:induction false} InvStep(s: State, step: Step)
    requires Inv(s) && Enabled(s, step)
    ensures Inv(Do(s, step))
  {
    if step.RequestJob? {
      StepRequest(s, step.job, step.prompt);
    } else if step.Answer? || step.AnswerFails? || step.Send? || step.SendFails? || step.Receive? {
      StepHandler(s, step);
    } else if step.CreateCard? || step.IgnoreCard? || step.ApproveCard? || step.RequestFails? || step.Foreign? {
      StepCard(s, step);
    } else if step.Begin? || step.Launch? {
      StepWorkerProgress(s, step);
    } else if step.Finish? || step.FailRun? || (step.Fallback? && step.written) {
      StepWorkerEnd(s, step);
    } else if step.File? || step.Err? || step.Fallback? {
      StepWorkerMove(s, step);
    } else {
      StepDaemon(s, step);
    }
  }

  lemma StepHandler(s: State, step: Step)
    requires Inv(s) && Enabled(s, step)
    requires step.Answer? || step.AnswerFails? || step.Send? || step.SendFails? || step.Receive?
    ensures Inv(Do(s, step))
  {
    match step
    case Answer => StepAnswer(s);
    case AnswerFails => StepAnswerFails(s);
    case Send(i) => StepSend(s, i);
    case SendFails(i, written) => StepSendFails(s, i, written);
    case Receive => StepReceive(s);
  }

  lemma {:induction false} InvAlways(steps: seq<Step>)
    requires Feasible(steps)
    ensures Inv(After(steps))
  {
    if steps != [] {
      InvAlways(steps[..|steps| - 1]);
      InvStep(After(steps[..|steps| - 1]), steps[|steps| - 1]);
    }
  }
}
