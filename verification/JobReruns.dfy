/** How many artifacts a job can have: exactly when a job already filed is run again. */
module JobReruns {
  import opened Domain
  import opened Sequences
  import opened KeyedList
  import opened Replay
  import opened Readers
  import opened JobProtocol
  import opened JobSafety
  import opened JobTheorems

  // ---- Counting re-runs on the ledger ------------------------------------------------

  /** The starts of the job that follow an artifact not yet started over. */
  ghost function Restarts(log: seq<Event>, job: Id): nat {
    if log == [] then 0
    else
      var init, last := log[..|log| - 1], log[|log| - 1];
      Restarts(init, job) + (if Tagged(last, StartOf(job)) && ArtifactSinceStart(init, job) then 1 else 0)
  }

  lemma RestartsAppend(log: seq<Event>, e: Event, job: Id)
    ensures Restarts(log + [e], job) ==
            Restarts(log, job) + (if Tagged(e, StartOf(job)) && ArtifactSinceStart(log, job) then 1 else 0)
  {
    assert (log + [e])[..|log|] == log;
  }

  ghost predicate Balanced(log: seq<Event>, job: Id) {
    Count(log, ArtifactOf(job)) == Restarts(log, job) + (if ArtifactSinceStart(log, job) then 1 else 0)
  }

  ghost predicate BalanceInv(s: State, job: Id) {
    Balanced(s.log, job) && (Unfiled(s, job) == 1 ==> !ArtifactSinceStart(s.log, job))
  }

  lemma BalanceWrite(s: State, e: Event, t: State, job: Id)
    requires BalanceInv(s, job) && t.log == s.log + [e]
    requires Tagged(e, ArtifactOf(job)) ==> Unfiled(s, job) == 1 && Unfiled(t, job) == 0
    requires Unfiled(t, job) == 1 ==> Unfiled(s, job) == 1 || Tagged(e, StartOf(job))
    ensures BalanceInv(t, job)
  {
    CountAppend(s.log, e, ArtifactOf(job));
    RestartsAppend(s.log, e, job);
    ArtifactAppend(s.log, e, job);
  }

  lemma BalanceStep(s: State, step: Step, job: Id)
    requires BalanceInv(s, job) && Enabled(s, step)
    ensures BalanceInv(Do(s, step), job)
  {
    var t := Do(s, step);
    var rows := OneRowAtMost(s, step);
    BalancePhases(s, step, rows, job);
    if rows == [] {
      assert t.log == s.log;
    } else {
      BalanceWrite(s, rows[0], t, job);
    }
  }

  /** Only filing writes an artifact, and only beginning makes a job unfiled. */
  lemma BalancePhases(s: State, step: Step, rows: seq<Event>, job: Id)
    requires Enabled(s, step) && Do(s, step).log == s.log + rows && |rows| <= 1
    ensures var t := Do(s, step);
            && (rows != [] && Tagged(rows[0], ArtifactOf(job)) ==> Unfiled(s, job) == 1 && Unfiled(t, job) == 0)
            && (Unfiled(t, job) == 1 ==>
                  Unfiled(s, job) == 1 || (rows != [] && Tagged(rows[0], StartOf(job))))
  {
    var t := Do(s, step);
    assert rows == t.log[|s.log|..];
  }

  lemma {:induction false} BalanceAlways(steps: seq<Step>, job: Id)
    requires Feasible(steps)
    ensures BalanceInv(After(steps), job)
  {
    if steps != [] {
      BalanceAlways(steps[..|steps| - 1], job);
      BalanceStep(After(steps[..|steps| - 1]), steps[|steps| - 1], job);
    }
  }

  /** In every run a job has exactly one artifact more than it was started over after
      filing one, or as many if it was started over last. */
  lemma {:induction false} ArtifactsExactly(steps: seq<Step>, job: Id)
    requires Feasible(steps)
    ensures var log := After(steps).log;
            Count(log, ArtifactOf(job)) == Restarts(log, job) + (if ArtifactSinceStart(log, job) then 1 else 0)
  {
    BalanceAlways(steps, job);
  }

  // ---- The boots that cause them ------------------------------------------------------

  /** The job has filed an artifact since its last start, and recovery would return it. */
  ghost predicate FiledYetOpen(log: seq<Event>, job: Id) {
    Has(Recoverable(log), job) && ArtifactSinceStart(log, job)
  }

  /** The boots of a run that find the job filed yet open. */
  ghost function FiledBoots(steps: seq<Step>, job: Id): nat
    requires Feasible(steps)
  {
    if steps == [] then 0
    else
      var init := steps[..|steps| - 1];
      FiledBoots(init, job)
      + (if steps[|steps| - 1] == Boot && FiledYetOpen(After(init).log, job) then 1 else 0)
  }

  /** The runner has the job and has filed its artifact, or has just failed on it. */
  predicate PastFiling(s: State, job: Id) {
    s.runner.Busy? && s.runner.job.id == job && (s.runner.phase == Filed || s.runner.phase == Errored)
  }

  ghost predicate BootInv(s: State, job: Id, boots: nat) {
    var artifacts := Count(s.log, ArtifactOf(job));
    && artifacts <= boots + (if ArtifactSinceStart(s.log, job) then 1 else 0)
    && (Tally(Held(s), job) > 0 && !PastFiling(s, job) ==> artifacts <= boots)
    && (JobUnseen(s.log, job) ==> artifacts == 0)
  }

  lemma QuietJobRows(log: seq<Event>, rows: seq<Event>, job: Id)
    requires |rows| <= 1
    requires rows != [] ==> !Tagged(rows[0], ArtifactOf(job)) && !Tagged(rows[0], StartOf(job))
    ensures Count(log + rows, ArtifactOf(job)) == Count(log, ArtifactOf(job))
    ensures ArtifactSinceStart(log + rows, job) <==> ArtifactSinceStart(log, job)
    ensures JobUnseen(log + rows, job) ==> JobUnseen(log, job)
  {
    if rows == [] {
      assert log + rows == log;
    } else {
      assert rows == [rows[0]];
      CountAppend(log, rows[0], ArtifactOf(job));
      ArtifactAppend(log, rows[0], job);
      assert forall e | e in log :: e in log + rows;
    }
  }

  /** The runner lets go of the job with this step. */
  predicate Releases(s: State, step: Step, id: Id) {
    (step.Finish? || step.FailRun? || step.Fallback?) && s.runner.Busy? && s.runner.job.id == id
  }

  lemma RecoveryHoldsNoMore(s: State, step: Step, id: Id)
    requires Enabled(s, step)
    requires step.Recover? || step.RecoverFails? || step.RecoverSend? || step.RecoverSendFails? || step.Serve?
    ensures Tally(Held(Do(s, step)), id) <= Tally(Held(s), id)
  {
    var t := Do(s, step);
    HeldTally(s, id);
    HeldTally(t, id);
    if step.RecoverSend? {
      TallyAppend(s.queue, [s.daemon.hand.value], id);
    }
  }

  lemma AnswerHoldsNoMore(s: State, id: Id)
    requires s.checking.Some?
    ensures Tally(Held(s.(checking := None, unsent := s.unsent + [s.checking.value])), id) <= Tally(Held(s), id)
    ensures forall stranded :: Tally(Held(s.(checking := None, stranded := stranded)), id) <= Tally(Held(s), id)
  {
    HeldTally(s, id);
    HeldTally(s.(checking := None, unsent := s.unsent + [s.checking.value]), id);
    TallyAppend(s.unsent, [s.checking.value], id);
    forall stranded ensures Tally(Held(s.(checking := None, stranded := stranded)), id) <= Tally(Held(s), id) {
      HeldTally(s.(checking := None, stranded := stranded), id);
    }
  }

  lemma ReceiveHoldsNoMore(s: State, id: Id)
    requires s.queue != [] && s.runner == Resting
    ensures Tally(Held(s.(runner := Busy(s.queue[0], Received), queue := s.queue[1..])), id) <= Tally(Held(s), id)
  {
    HeldTally(s, id);
    HeldTally(s.(runner := Busy(s.queue[0], Received), queue := s.queue[1..]), id);
  }

  lemma HandlersHoldNoMore(s: State, step: Step, id: Id)
    requires Enabled(s, step)
    requires step.Answer? || step.AnswerFails? || step.Send? || step.SendFails? || step.Receive?
    ensures Tally(Held(Do(s, step)), id) <= Tally(Held(s), id)
  {
    match step
    case Answer => AnswerHoldsNoMore(s, id);
    case AnswerFails => AnswerHoldsNoMore(s, id);
    case Receive => ReceiveHoldsNoMore(s, id);
    case Send(i) => UnsentTally(s, i, id);
    case SendFails(i, _) =>
      UnsentTally(s, i, id);
      assert Held(Do(s, step)) == Held(s.(unsent := Without(s.unsent, i)));
  }

  /** The runner's job stays held while the runner has it, and only then. */
  lemma RunnerTallies(s: State, t: State, id: Id)
    requires s.runner.Busy? && t.daemon == s.daemon && t.queue == s.queue
    requires t.unsent == s.unsent && t.checking == s.checking
    requires t.runner.Busy? ==> t.runner.job == s.runner.job
    ensures Tally(Held(t), id) + (if t.runner == Resting && s.runner.job.id == id then 1 else 0) == Tally(Held(s), id)
  {
    RunnerTally(s, t);
  }

  lemma RunnerHoldsNoMore(s: State, step: Step, id: Id)
    requires Enabled(s, step)
    requires step.Begin? || step.Launch? || step.File? || step.Finish? || step.FailRun? || step.Err? || step.Fallback?
    ensures Tally(Held(Do(s, step)), id) + (if Releases(s, step, id) then 1 else 0) <= Tally(Held(s), id)
  {
    RunnerTallies(s, Do(s, step), id);
  }

  /** Only a boot and a job request put a job in the daemon's hands. */
  lemma HoldsNoMore(s: State, step: Step, id: Id)
    requires Enabled(s, step) && !step.Boot? && !step.RequestJob?
    ensures Tally(Held(Do(s, step)), id) + (if Releases(s, step, id) then 1 else 0) <= Tally(Held(s), id)
  {
    if step.Recover? || step.RecoverFails? || step.RecoverSend? || step.RecoverSendFails? || step.Serve? {
      RecoveryHoldsNoMore(s, step, id);
    } else if step.Answer? || step.AnswerFails? || step.Send? || step.SendFails? || step.Receive? {
      HandlersHoldNoMore(s, step, id);
    } else if step.Begin? || step.Launch? || step.File? || step.Finish? || step.FailRun?
              || step.Err? || step.Fallback? {
      RunnerHoldsNoMore(s, step, id);
    } else {
      assert Held(Do(s, step)) == if step.Crash? then [] else Held(s);
    }
  }

  lemma HeldOnce(s: State, job: Id)
    requires Inv(s)
    ensures Tally(Held(s), job) <= 1
    ensures Tally(Held(s), job) > 0 ==> !JobUnseen(s.log, job)
  {
    if Tally(Held(s), job) > 0 {
      TallyHas(Held(s), job);
      var i :| 0 <= i < |Held(s)| && Held(s)[i].id == job;
      HeldIsRecoverable(s, Held(s)[i]);
      if JobUnseen(s.log, job) {
        UnseenNotRecoverable(s.log, job);
      }
    }
  }

  lemma RunnerKeepsFiling(s: State, step: Step, job: Id)
    requires Enabled(s, step) && !step.Crash? && PastFiling(s, job)
    ensures PastFiling(Do(s, step), job) || Releases(s, step, job)
  {
  }

  predicate ToRun(s: State, job: Id) {
    Tally(Held(s), job) > 0 && !PastFiling(s, job)
  }

  lemma NothingHeldAfterCrash(s: State, job: Id)
    requires Enabled(s, Crash)
    ensures !ToRun(Do(s, Crash), job)
  {
    assert Held(Do(s, Crash)) == [];
  }

  /** A job still to be run was so before, unless a boot or a request made it so. */
  lemma ToRunBefore(s: State, step: Step, job: Id)
    requires Inv(s) && Enabled(s, step) && !step.Boot? && !step.RequestJob?
    requires ToRun(Do(s, step), job)
    ensures ToRun(s, job)
  {
    HoldsNoMore(s, step, job);
    HeldOnce(s, job);
    if step.Crash? {
      NothingHeldAfterCrash(s, job);
    } else if PastFiling(s, job) {
      RunnerKeepsFiling(s, step, job);
    }
  }

  lemma QuietInv(s: State, t: State, rows: seq<Event>, job: Id, boots: nat)
    requires BootInv(s, job, boots) && t.log == s.log + rows && |rows| <= 1
    requires rows != [] ==> !Tagged(rows[0], ArtifactOf(job)) && !Tagged(rows[0], StartOf(job))
    requires ToRun(t, job) ==> ToRun(s, job) || JobUnseen(s.log, job)
    ensures BootInv(t, job, boots)
  {
    QuietJobRows(s.log, rows, job);
  }

  lemma BootInvQuiet(s: State, step: Step, job: Id, boots: nat)
    requires Inv(s) && BootInv(s, job, boots) && Enabled(s, step) && !step.Boot? && !step.RequestJob?
    requires !((step.Begin? || step.File?) && s.runner.job.id == job)
    ensures BootInv(Do(s, step), job, boots)
  {
    var rows := OneRowAtMost(s, step);
    QuietRows(s, step, rows, job);
    if ToRun(Do(s, step), job) {
      ToRunBefore(s, step, job);
    }
    QuietInv(s, Do(s, step), rows, job, boots);
  }

  lemma QuietRows(s: State, step: Step, rows: seq<Event>, job: Id)
    requires Enabled(s, step) && Do(s, step).log == s.log + rows && |rows| <= 1
    requires !((step.Begin? || step.File?) && s.runner.job.id == job)
    ensures rows != [] ==> !Tagged(rows[0], ArtifactOf(job)) && !Tagged(rows[0], StartOf(job))
  {
    assert rows == Do(s, step).log[|s.log|..];
  }

  /** The runner starts the job over, or files its artifact. */
  lemma RunnerInv(s: State, t: State, e: Event, job: Id, boots: nat)
    requires BootInv(s, job, boots) && t.log == s.log + [e] && ToRun(s, job) && !JobUnseen(s.log, job)
    requires if Tagged(e, ArtifactOf(job)) then PastFiling(t, job) else Tagged(e, StartOf(job))
    ensures BootInv(t, job, boots)
  {
    CountAppend(s.log, e, ArtifactOf(job));
    ArtifactAppend(s.log, e, job);
    assert forall x | x in s.log :: x in t.log;
  }

  lemma RunnerToRun(s: State)
    requires Inv(s) && s.runner.Busy? && s.runner.phase != Filed && s.runner.phase != Errored
    ensures ToRun(s, s.runner.job.id) && !JobUnseen(s.log, s.runner.job.id)
  {
    HeldTally(s, s.runner.job.id);
    HeldOnce(s, s.runner.job.id);
  }

  lemma BootInvBegin(s: State, boots: nat)
    requires s.runner.Busy? && s.runner.phase == Received && BootInv(s, s.runner.job.id, boots)
    requires ToRun(s, s.runner.job.id) && !JobUnseen(s.log, s.runner.job.id)
    ensures var job := s.runner.job;
            BootInv(Write(s, JobRow(JobVerb.Started, MarkRunning(job, "preparing sandbox")))
                    .(runner := Busy(job, Begun)),
                    job.id, boots)
  {
    var job := s.runner.job;
    var row := JobRow(JobVerb.Started, MarkRunning(job, "preparing sandbox"));
    RunnerInv(s, Write(s, row).(runner := Busy(job, Begun)), row, job.id, boots);
  }

  lemma BootInvFile(s: State, artifact: Id, boots: nat)
    requires s.runner.Busy? && s.runner.phase == Launched && BootInv(s, s.runner.job.id, boots)
    requires ToRun(s, s.runner.job.id) && !JobUnseen(s.log, s.runner.job.id)
    ensures var job := s.runner.job;
            var row := Event(job.body.meeting, ArtifactCreated(Good(Artifact(artifact, job.id))));
            BootInv(Write(s, row).(runner := Busy(job, Filed)), job.id, boots)
  {
    var job := s.runner.job;
    var row := Event(job.body.meeting, ArtifactCreated(Good(Artifact(artifact, job.id))));
    RunnerInv(s, Write(s, row).(runner := Busy(job, Filed)), row, job.id, boots);
  }

  lemma RequestHolds(s: State, work: Job, log: seq<Event>, job: Id)
    requires s.checking.None?
    ensures var t := s.(log := log, approving := None, checking := Some(work));
            Tally(Held(t), job) == Tally(Held(s), job) + (if work.id == job then 1 else 0)
  {
    HeldTally(s, job);
    HeldTally(s.(log := log, approving := None, checking := Some(work)), job);
  }

  lemma BootInvRequest(s: State, id: Id, prompt: Option<string>, job: Id, boots: nat)
    requires BootInv(s, job, boots) && Enabled(s, RequestJob(id, prompt))
    ensures BootInv(Do(s, RequestJob(id, prompt)), job, boots)
  {
    var work := BuildJob(s.approving.value, id, prompt);
    RequestInv(s, work, job, boots);
  }

  lemma RequestInv(s: State, work: Job, job: Id, boots: nat)
    requires BootInv(s, job, boots) && s.checking.None? && JobUnseen(s.log, work.id)
    ensures BootInv(Write(s, JobRow(Requested, work)).(approving := None, checking := Some(work)), job, boots)
  {
    var t := Write(s, JobRow(Requested, work)).(approving := None, checking := Some(work));
    RequestHolds(s, work, t.log, job);
    QuietInv(s, t, [JobRow(Requested, work)], job, boots);
  }

  lemma BootInvBoot(s: State, job: Id, boots: nat)
    requires BootInv(s, job, boots) && Enabled(s, Boot)
    requires Held(s) == [] && s.runner == Resting && s.queue == [] && s.unsent == [] && s.checking.None?
    ensures BootInv(Do(s, Boot), job, boots + (if FiledYetOpen(s.log, job) then 1 else 0))
  {
    assert Held(Do(s, Boot)) == Recoverable(s.log);
    TallyHas(Recoverable(s.log), job);
  }

  lemma {:induction false} BootInvAlways(steps: seq<Step>, job: Id)
    requires Feasible(steps)
    ensures BootInv(After(steps), job, FiledBoots(steps, job))
  {
    if steps != [] {
      var init, step := steps[..|steps| - 1], steps[|steps| - 1];
      BootInvAlways(init, job);
      InvAlways(init);
      BootInvStep(After(init), step, job, FiledBoots(init, job));
    }
  }

  lemma BootInvStep(s: State, step: Step, job: Id, boots: nat)
    requires Inv(s) && BootInv(s, job, boots) && Enabled(s, step)
    ensures BootInv(Do(s, step), job,
                    boots + (if step == Boot && FiledYetOpen(s.log, job) then 1 else 0))
  {
    if step.Boot? {
      BootInvBoot(s, job, boots);
    } else if step.RequestJob? {
      BootInvRequest(s, step.job, step.prompt, job, boots);
    } else if step.Begin? && s.runner.job.id == job {
      RunnerToRun(s);
      BootInvBegin(s, boots);
    } else if step.File? && s.runner.job.id == job {
      RunnerToRun(s);
      BootInvFile(s, step.artifact, boots);
    } else {
      BootInvQuiet(s, step, job, boots);
    }
  }

  /** Never more artifacts than one plus the boots that found the job filed yet open. */
  lemma {:induction false} ArtifactsBounded(steps: seq<Step>, job: Id)
    requires Feasible(steps)
    ensures Count(After(steps).log, ArtifactOf(job)) <= 1 + FiledBoots(steps, job)
  {
    BootInvAlways(steps, job);
  }

  // ---- Every such boot can lead to a second artifact -----------------------------------

  /** The run goes on from there with steps that are no boots. */
  ghost predicate Continues(steps: seq<Step>, more: seq<Step>)
  {
    Feasible(steps) && Feasible(more) && steps <= more && forall i | |steps| <= i < |more| :: more[i] != Boot
  }

  lemma ContinueWith(steps: seq<Step>, more: seq<Step>, step: Step)
    requires Continues(steps, more) && Enabled(After(more), step) && step != Boot
    ensures Continues(steps, more + [step]) && After(more + [step]) == Do(After(more), step)
  {
    Extend(more, step);
  }

  lemma {:induction false} NoMoreBoots(steps: seq<Step>, more: seq<Step>, job: Id)
    requires Continues(steps, more)
    ensures FiledBoots(more, job) == FiledBoots(steps, job)
  {
    if |more| == |steps| {
      assert more == steps;
    } else {
      var init := more[..|more| - 1];
      assert steps <= init;
      NoMoreBoots(steps, init, job);
    }
  }

  /** Recovery under way, with nothing queued or running. */
  predicate AtJob(s: State, todo: seq<Job>) {
    s.daemon == Recovering(todo, None) && s.runner == Resting && s.queue == []
  }

  lemma FailNext(steps: seq<Step>, before: seq<Step>, todo: seq<Job>, job: Id)
    requires Continues(steps, before) && AtJob(After(before), todo) && todo != []
    ensures Continues(steps, before + [RecoverFails]) && AtJob(After(before + [RecoverFails]), todo[1..])
    ensures Count(After(before + [RecoverFails]).log, ArtifactOf(job)) == Count(After(before).log, ArtifactOf(job))
  {
    var s := After(before);
    ContinueWith(steps, before, RecoverFails);
    var rows := OneRowAtMost(s, RecoverFails);
    QuietRows(s, RecoverFails, rows, job);
    QuietJobRows(s.log, rows, job);
  }

  /** Recovery can fail the first i jobs of its list, were their stale workers to stay. */
  lemma {:induction false} FailFirst(steps: seq<Step>, todo: seq<Job>, i: nat, job: Id) returns (more: seq<Step>)
    requires Feasible(steps) && AtJob(After(steps), todo) && i <= |todo|
    ensures Continues(steps, more) && AtJob(After(more), todo[i..])
    ensures Count(After(more).log, ArtifactOf(job)) == Count(After(steps).log, ArtifactOf(job))
  {
    if i == 0 {
      more := steps;
      assert todo[0..] == todo;
    } else {
      var before := FailFirst(steps, todo, i - 1, job);
      assert todo[i - 1..][1..] == todo[i..];
      FailNext(steps, before, todo[i - 1..], job);
      more := before + [RecoverFails];
    }
  }

  /** Recovery re-queues the next job and the worker takes it. */
  lemma TakeNext(steps: seq<Step>, before: seq<Step>, todo: seq<Job>) returns (more: seq<Step>)
    requires Continues(steps, before) && AtJob(After(before), todo) && todo != []
    ensures Continues(steps, more)
    ensures AtPhase(After(more), MarkRecovered(todo[0], ""), Received,
                    Count(After(before).log, ArtifactOf(todo[0].id)))
  {
    CountAppend(After(before).log, JobRow(Progress, MarkRecovered(todo[0], "")), ArtifactOf(todo[0].id));
    ContinueWith(steps, before, Step.Recover(""));
    more := before + [Step.Recover("")];
    ContinueWith(steps, more, RecoverSend);
    more := more + [RecoverSend];
    ContinueWith(steps, more, Receive);
    more := more + [Receive];
  }

  /** The runner is on a job, in a given phase, and so many of its artifacts are filed. */
  predicate AtPhase(s: State, job: Job, phase: Phase, artifacts: nat) {
    s.daemon != Down && s.runner == Busy(job, phase) && Count(s.log, ArtifactOf(job.id)) == artifacts
  }

  lemma RunBegin(steps: seq<Step>, before: seq<Step>, job: Job, n: nat)
    requires Continues(steps, before) && AtPhase(After(before), job, Received, n)
    ensures Continues(steps, before + [Begin]) && AtPhase(After(before + [Begin]), job, Begun, n)
  {
    ContinueWith(steps, before, Begin);
    CountAppend(After(before).log, JobRow(JobVerb.Started, MarkRunning(job, "preparing sandbox")), ArtifactOf(job.id));
  }

  lemma RunLaunch(steps: seq<Step>, before: seq<Step>, job: Job, n: nat)
    requires Continues(steps, before) && AtPhase(After(before), job, Begun, n)
    ensures Continues(steps, before + [Launch]) && AtPhase(After(before + [Launch]), job, Launched, n)
  {
    ContinueWith(steps, before, Launch);
    CountAppend(After(before).log, JobRow(Progress, MarkRunning(job, "sandbox ready")), ArtifactOf(job.id));
  }

  lemma RunFile(steps: seq<Step>, before: seq<Step>, job: Job, n: nat, artifact: Id)
    requires Continues(steps, before) && AtPhase(After(before), job, Launched, n)
    ensures Continues(steps, before + [File(artifact)])
    ensures AtPhase(After(before + [File(artifact)]), job, Filed, n + 1)
  {
    ContinueWith(steps, before, File(artifact));
    CountAppend(After(before).log, Event(job.body.meeting, ArtifactCreated(Good(Artifact(artifact, job.id)))),
                ArtifactOf(job.id));
  }

  /** The runner takes the job it has received as far as its artifact. */
  lemma RunToFiling(steps: seq<Step>, before: seq<Step>, job: Job, n: nat, artifact: Id) returns (more: seq<Step>)
    requires Continues(steps, before) && AtPhase(After(before), job, Received, n)
    ensures Continues(steps, more) && AtPhase(After(more), job, Filed, n + 1)
  {
    RunBegin(steps, before, job, n);
    RunLaunch(steps, before + [Begin], job, n);
    RunFile(steps, before + [Begin] + [Launch], job, n, artifact);
    more := before + [Begin] + [Launch] + [File(artifact)];
  }

  lemma FiledHasArtifact(log: seq<Event>, job: Id)
    requires ArtifactSinceStart(log, job)
    ensures Count(log, ArtifactOf(job)) >= 1
  {
    CountNone(log, ArtifactOf(job));
    var a :| 0 <= a < |log| && Tagged(log[a], ArtifactOf(job));
    assert log[a] in log;
  }

  /** Whenever a boot finds a job filed yet open, the run can go on, with no further
      boot, to one more artifact of it. */
  lemma {:induction false} FiledBootReruns(steps: seq<Step>, job: Id, artifact: Id) returns (more: seq<Step>)
    requires Feasible(steps) && After(steps).daemon == Down && FiledYetOpen(After(steps).log, job)
    ensures Feasible(steps + [Boot]) && Continues(steps + [Boot], more)
    ensures Count(After(more).log, ArtifactOf(job)) == Count(After(steps).log, ArtifactOf(job)) + 1 >= 2
  {
    var todo := Recoverable(After(steps).log);
    InvAlways(steps);
    Extend(steps, Boot);
    FiledHasArtifact(After(steps).log, job);
    var i :| 0 <= i < |todo| && todo[i].id == job;
    var failed := FailFirst(steps + [Boot], todo, i, job);
    assert todo[i..][0] == todo[i];
    var taken := TakeNext(steps + [Boot], failed, todo[i..]);
    more := RunToFiling(steps + [Boot], taken, MarkRecovered(todo[i], ""),
                        Count(After(steps).log, ArtifactOf(job)), artifact);
  }

  ghost predicate HasTwo(steps: seq<Step>, job: Id) {
    Feasible(steps) && Count(After(steps).log, ArtifactOf(job)) >= 2
  }

  /** The k-th step is a boot that finds the job filed yet open, and from that boot the
      run can go on, with no further boot, to a second artifact. */
  ghost predicate RerunAt(steps: seq<Step>, k: nat, more: seq<Step>, job: Id) {
    && k < |steps| && steps[k] == Boot
    && Feasible(steps[..k]) && FiledYetOpen(After(steps[..k]).log, job)
    && Continues(steps[..k + 1], more) && HasTwo(more, job)
  }

  ghost predicate CouldRerun(steps: seq<Step>, job: Id) {
    exists k: nat, more :: RerunAt(steps, k, more, job)
  }

  lemma CouldRerunStill(steps: seq<Step>, step: Step, job: Id)
    requires CouldRerun(steps, job)
    ensures CouldRerun(steps + [step], job)
  {
    var k: nat, more :| RerunAt(steps, k, more, job);
    assert (steps + [step])[..k] == steps[..k] && (steps + [step])[..k + 1] == steps[..k + 1];
    assert RerunAt(steps + [step], k, more, job);
  }

  lemma FiledBootCould(steps: seq<Step>, job: Id, artifact: Id)
    requires Feasible(steps) && After(steps).daemon == Down && FiledYetOpen(After(steps).log, job)
    ensures CouldRerun(steps + [Boot], job)
  {
    var more := FiledBootReruns(steps, job, artifact);
    assert (steps + [Boot])[..|steps|] == steps && (steps + [Boot])[..|steps| + 1] == steps + [Boot];
    assert RerunAt(steps + [Boot], |steps|, more, job);
  }

  lemma {:induction false} FiledBootsCould(steps: seq<Step>, job: Id, artifact: Id)
    requires Feasible(steps) && FiledBoots(steps, job) > 0
    ensures CouldRerun(steps, job)
  {
    var init, last := steps[..|steps| - 1], steps[|steps| - 1];
    SplitLast(steps);
    if FiledBoots(init, job) > 0 {
      FiledBootsCould(init, job, artifact);
      CouldRerunStill(init, last, job);
    } else {
      FiledBootCould(init, job, artifact);
    }
  }

  /** A boot that finds the job filed yet open is counted, wherever in the run it is. */
  lemma {:induction false} RerunIsCounted(steps: seq<Step>, k: nat, more: seq<Step>, job: Id)
    requires Feasible(steps) && RerunAt(steps, k, more, job)
    ensures FiledBoots(steps, job) > 0
  {
    if k < |steps| - 1 {
      var init := steps[..|steps| - 1];
      assert init[..k] == steps[..k] && init[..k + 1] == steps[..k + 1];
      RerunIsCounted(init, k, more, job);
    }
  }

  /** The exact condition for a second artifact. A run whose boots never find the job
      filed yet open has at most one artifact of it; and a run has such a boot if and
      only if from one of its boots that finds the job so it can go on, with no further
      boot, to a second artifact. */
  lemma {:induction false} SecondArtifactExactly(steps: seq<Step>, job: Id, artifact: Id)
    requires Feasible(steps)
    ensures FiledBoots(steps, job) == 0 ==> Count(After(steps).log, ArtifactOf(job)) <= 1
    ensures FiledBoots(steps, job) > 0 <==> CouldRerun(steps, job)
  {
    ArtifactsBounded(steps, job);
    if FiledBoots(steps, job) > 0 {
      FiledBootsCould(steps, job, artifact);
    } else if CouldRerun(steps, job) {
      var k: nat, more :| RerunAt(steps, k, more, job);
      RerunIsCounted(steps, k, more, job);
    }
  }

  /** A crash now makes the next boot find the job filed yet open exactly when its
      artifact is on file since its last start and the daemon still has it, could not
      record its failure, or has stranded it. */
  lemma {:induction false} CrashRerunsExactly(steps: seq<Step>, job: Id)
    requires Feasible(steps) && After(steps).daemon != Down
    ensures Feasible(steps + [Crash] + [Boot])
    ensures var s := After(steps);
            FiledBoots(steps + [Crash] + [Boot], job) == FiledBoots(steps, job) + 1 <==>
            ArtifactSinceStart(s.log, job) && (Has(Held(s), job) || job in s.dropped || job in s.stranded)
  {
    Extend(steps, Crash);
    Extend(steps + [Crash], Boot);
    assert (steps + [Crash])[..|steps|] == steps;
    assert (steps + [Crash] + [Boot])[..|steps| + 1] == steps + [Crash];
    RecoverableIsHeld(steps, job);
  }

  /** A crash is not the only way: if neither the completion nor the fallback failure can
      be recorded, the job stays open with its artifact on file while the daemon goes on. */
  lemma {:induction false} UnrecordedEndReruns(steps: seq<Step>)
    requires Feasible(steps) && After(steps).runner.Busy? && After(steps).runner.phase == Filed
    ensures Feasible(steps + [Err] + [Fallback(false)])
    ensures var job, t := After(steps).runner.job.id, After(steps + [Err] + [Fallback(false)]);
            t.daemon != Down && t.runner == Resting && FiledYetOpen(t.log, job)
  {
    var s := After(steps);
    InvAlways(steps);
    RunInvAlways(steps, s.runner.job.id);
    assert s.runner.job in Held(s);
    HeldIsRecoverable(s, s.runner.job);
    Extend(steps, Err);
    Extend(steps + [Err], Fallback(false));
  }
}
