/** What the job rows of a run say: which status each kind of row carries, what a job in
    the daemon's hands looks like, and that all rows about a job ask for the same work. */
module JobValues {
  import opened Domain
  import opened Replay
  import opened Readers
  import opened JobProtocol
  import opened JobSafety
  import opened JobTheorems

  /** A decodable job row says about the job what its kind says. */
  predicate Says(e: Event) {
    e.body.JobEvent? && e.body.job.Good? ==>
      var job := e.body.job.value.body;
      match e.body.kind
      case Requested =>
        job.status == Queued && job.maxMinutes == 5 && job.note.None? && job.failure.None? && job.receipt.None?
      case Started => job.status == Running && job.note == Some("preparing sandbox") && job.failure.None?
      case Progress => (job.status == Queued || job.status == Running) && job.note.Some? && job.failure.None?
      case Complete => job.status == Completed && job.note == Some("worker completed") && job.failure.None?
      case Fail => job.status == JobStatus.Failed && job.failure.Some?
      case Cancel => false
  }

  /** Queued, with no failure and no receipt of an earlier execution. */
  predicate AsNew(job: Job) {
    job.body.status == Queued && job.body.failure.None? && job.body.receipt.None?
  }

  /** Every job on its way to the worker, or with it, is as new. */
  ghost predicate HandsAsNew(s: State) {
    && (s.daemon.Recovering? && s.daemon.hand.Some? ==> AsNew(s.daemon.hand.value))
    && (s.checking.Some? ==> AsNew(s.checking.value))
    && (forall job | job in s.unsent :: AsNew(job))
    && (forall job | job in s.queue :: AsNew(job))
    && (s.runner.Busy? ==> AsNew(s.runner.job))
  }

  lemma RequestSays(s: State, step: Step, rows: seq<Event>)
    requires HandsAsNew(s) && Enabled(s, step) && Do(s, step).log == s.log + rows && |rows| <= 1
    requires step.RequestJob? || step.SendFails? || step.Recover? || step.RecoverFails? || step.RecoverSendFails?
    ensures rows != [] ==> Says(rows[0])
  {
    assert rows == Do(s, step).log[|s.log|..];
  }

  lemma WorkerSays(s: State, step: Step, rows: seq<Event>)
    requires HandsAsNew(s) && Enabled(s, step) && Do(s, step).log == s.log + rows && |rows| <= 1
    requires step.Begin? || step.Launch? || step.File? || step.Finish? || step.FailRun? || step.Fallback?
    ensures rows != [] ==> Says(rows[0])
  {
    assert rows == Do(s, step).log[|s.log|..];
  }

  lemma OtherSays(s: State, step: Step, rows: seq<Event>)
    requires Enabled(s, step) && Do(s, step).log == s.log + rows && |rows| <= 1
    requires !step.RequestJob? && !step.SendFails? && !step.Recover? && !step.RecoverFails? && !step.RecoverSendFails?
    requires !step.Begin? && !step.Launch? && !step.File? && !step.Finish? && !step.FailRun? && !step.Fallback?
    ensures rows != [] ==> Says(rows[0])
  {
    assert rows == Do(s, step).log[|s.log|..];
  }

  lemma StepSays(s: State, step: Step)
    requires HandsAsNew(s) && Enabled(s, step) && forall e | e in s.log :: Says(e)
    ensures forall e | e in Do(s, step).log :: Says(e)
  {
    var rows := OneRowAtMost(s, step);
    if step.RequestJob? || step.SendFails? || step.Recover? || step.RecoverFails? || step.RecoverSendFails? {
      RequestSays(s, step, rows);
    } else if step.Begin? || step.Launch? || step.File? || step.Finish? || step.FailRun? || step.Fallback? {
      WorkerSays(s, step, rows);
    } else {
      OtherSays(s, step, rows);
    }
    assert forall e | e in Do(s, step).log :: e in s.log || (rows != [] && e == rows[0]);
  }

  lemma SendAsNew(s: State, i: nat)
    requires HandsAsNew(s) && i < |s.unsent|
    ensures forall job | job in Without(s.unsent, i) :: AsNew(job)
    ensures forall job | job in s.queue + [s.unsent[i]] :: AsNew(job)
  {
  }

  lemma StepAsNew(s: State, step: Step)
    requires HandsAsNew(s) && Enabled(s, step)
    ensures HandsAsNew(Do(s, step))
  {
    if step.Send? || step.SendFails? {
      SendAsNew(s, step.i);
    }
  }

  /** In every run each decodable job row says what its kind says, and every job that has
      been handed on is queued and bears no trace of an earlier execution. */
  lemma {:induction false} JobRowsSay(steps: seq<Step>)
    requires Feasible(steps)
    ensures forall e | e in After(steps).log :: Says(e)
    ensures HandsAsNew(After(steps))
  {
    if steps != [] {
      var init := steps[..|steps| - 1];
      JobRowsSay(init);
      StepSays(After(init), steps[|steps| - 1]);
      StepAsNew(After(init), steps[|steps| - 1]);
    }
  }

  /** In every run all rows about a job ask for the same work: its meeting, card, prompt,
      minutes and spans never change; and so does what the worker is given. */
  lemma {:induction false} JobRowsAgree(steps: seq<Step>, a: Event, b: Event, id: Id)
    requires Feasible(steps) && a in After(steps).log && b in After(steps).log && About(a, id) && About(b, id)
    ensures var x, y := a.body.job.value.body, b.body.job.value.body;
            && x.meeting == y.meeting && x.proposal == y.proposal && x.prompt == y.prompt
            && x.maxMinutes == y.maxMinutes && x.spans == y.spans
    ensures var r, x := After(steps).runner, a.body.job.value.body;
            r.Busy? && r.job.id == id ==>
              && r.job.body.meeting == x.meeting && r.job.body.proposal == x.proposal
              && r.job.body.prompt == x.prompt && r.job.body.maxMinutes == x.maxMinutes && r.job.body.spans == x.spans
  {
    InvAlways(steps);
    var s := After(steps);
    assert Faithful(s.log, b.body.job.value);
    if s.runner.Busy? && s.runner.job.id == id {
      assert s.runner.job in Held(s);
      assert Faithful(s.log, s.runner.job);
    }
  }
}
