/** The promises of the job protocol, for every feasible schedule: any interleaving,
    any failed append the code tolerates, any number of crashes and restarts. */
module JobTheorems {
  import opened Domain
  import opened KeyedList
  import opened Replay
  import opened Readers
  import opened Text
  import opened Redaction
  import opened JobProtocol
  import opened JobSafety

  // ---- Counting rows ---------------------------------------------------------------

  datatype Tag =
    | ApprovalOf(card: Id) | IgnoreOf(card: Id) | RequestFor(card: Id)
    | StartOf(job: Id) | ArtifactOf(job: Id) | CompletionOf(job: Id) | TerminalOf(job: Id)

  predicate Tagged(e: Event, tag: Tag) {
    match tag
    case ApprovalOf(id) => CardVerb(e, Approve, id)
    case IgnoreOf(id) => CardVerb(e, Ignore, id)
    case RequestFor(id) => JobVerbIs(e, Requested) && e.body.job.value.body.proposal == Some(id)
    case StartOf(id) => JobVerbIs(e, JobVerb.Started) && e.body.job.value.id == id
    case ArtifactOf(id) => e.body.ArtifactCreated? && e.body.artifact.Good? && e.body.artifact.value.job == id
    case CompletionOf(id) => JobVerbIs(e, Complete) && e.body.job.value.id == id
    case TerminalOf(id) => e.body.JobEvent? && e.body.kind.Terminal() && e.body.job.Good? && e.body.job.value.id == id
  }

  predicate CardVerb(e: Event, verb: ProposalVerb, id: Id) {
    e.body.ProposalEvent? && e.body.verb == verb && e.body.proposal.Good? && e.body.proposal.value.id == id
  }

  predicate CardRowAbout(e: Event, card: Id) {
    e.body.ProposalEvent? && e.body.proposal.Good? && e.body.proposal.value.id == card
  }

  predicate JobVerbIs(e: Event, verb: JobVerb) {
    e.body.JobEvent? && e.body.kind == verb && e.body.job.Good?
  }

  function Count(log: seq<Event>, tag: Tag): nat {
    if log == [] then 0
    else Count(log[..|log| - 1], tag) + (if Tagged(log[|log| - 1], tag) then 1 else 0)
  }

  lemma CountAppend(log: seq<Event>, e: Event, tag: Tag)
    ensures Count(log + [e], tag) == Count(log, tag) + (if Tagged(e, tag) then 1 else 0)
  {
    assert (log + [e])[..|log|] == log;
  }

  lemma {:induction false} CountNone(log: seq<Event>, tag: Tag)
    ensures Count(log, tag) == 0 <==> forall e | e in log :: !Tagged(e, tag)
  {
    if log != [] {
      var init := log[..|log| - 1];
      CountNone(init, tag);
      assert log == init + [log[|log| - 1]];
      assert forall e :: e in log <==> e in init || e == log[|log| - 1];
    }
  }

  // ---- Terminal rows -------------------------------------------------------------------

  lemma {:induction false} OneTerminalRow(log: seq<Event>, id: Id)
    requires Settled(log)
    ensures Count(log, TerminalOf(id)) <= 1
  {
    if log != [] {
      var init, last := log[..|log| - 1], log[|log| - 1];
      SettledPrefix(log);
      OneTerminalRow(init, id);
      if Tagged(last, TerminalOf(id)) {
        forall e | e in init ensures !Tagged(e, TerminalOf(id)) {
          var i :| 0 <= i < |init| && init[i] == e;
          assert About(log[|log| - 1], id) && log[i] == e;
          assert About(log[i], id) ==> !log[i].body.kind.Terminal();
        }
        CountNone(init, TerminalOf(id));
      }
    }
  }

  /** Each job has at most one terminal row in the whole ledger, and no row about it
      ever follows. */
  lemma {:induction false} AtMostOneTerminal(steps: seq<Step>, id: Id)
    requires Feasible(steps)
    ensures var log := After(steps).log;
            && Count(log, TerminalOf(id)) <= 1
            && forall i, j | 0 <= i < j < |log| && Tagged(log[i], TerminalOf(id)) :: !About(log[j], id)
  {
    InvAlways(steps);
    OneTerminalRow(After(steps).log, id);
    var log := After(steps).log;
    forall i, j | 0 <= i < j < |log| && Tagged(log[i], TerminalOf(id)) ensures !About(log[j], id) {
      assert About(log[i], id);
    }
  }

  /** The ledger has a decodable row about the job. */
  ghost predicate Recorded(log: seq<Event>, id: Id) {
    exists e :: e in log && About(e, id)
  }

  lemma RecordedStays(log: seq<Event>, rows: seq<Event>, id: Id)
    requires Recorded(log, id)
    ensures Recorded(log + rows, id)
  {
    var e :| e in log && About(e, id);
    assert e in log + rows;
  }

  lemma NotLiveIsTerminal(e: Event, id: Id)
    requires About(e, id) && ProperJobRow(e) && !SaysLive(e.body)
    ensures Tagged(e, TerminalOf(id))
  {
  }

  /** No job is lost: in every reachable state, also right after a crash, a job with
      any decodable row in the ledger is either over or recoverable, and never both. */
  lemma {:induction false} NoJobLost(steps: seq<Step>, id: Id)
    requires Feasible(steps) && Recorded(After(steps).log, id)
    ensures var log := After(steps).log;
            (Count(log, TerminalOf(id)) == 1) != Has(Recoverable(log), id)
  {
    InvAlways(steps);
    var log := After(steps).log;
    OneTerminalRow(log, id);
    CountNone(log, TerminalOf(id));
    if Has(Recoverable(log), id) {
      RecoverableIsOpen(log, id);
      forall e | e in log ensures !Tagged(e, TerminalOf(id)) {
        assert About(e, id) ==> !e.body.kind.Terminal();
      }
    } else {
      var e :| e in log && About(e, id);
      var k := LastAbout(log, id, e);
      RecoverableExactly(log, id);
      NotLiveIsTerminal(log[k], id);
      assert log[k] in log;
    }
  }

  lemma LastAbout(log: seq<Event>, id: Id, e: Event) returns (k: int)
    requires Settled(log) && e in log && About(e, id)
    ensures LastWord(log, id, k) && About(log[k], id)
  {
    k := |log| - 1;
    while !About(log[k], id)
      invariant -1 <= k < |log|
      invariant e in log[..k + 1]
      invariant forall i | k < i < |log| :: !About(log[i], id)
      decreases k
    {
      assert log[..k + 1] == log[..k] + [log[k]];
      k := k - 1;
    }
    forall i | k < i < |log| ensures !SpeaksOf(log[i].body, id) {
      assert log[i] in log && !Damaged(log[i], id);
    }
  }

  /** While the daemon is up, the recoverable jobs are exactly those it still has to
      re-queue, has in hand, queued, running, or requested and not yet sent, plus those
      whose failure row could not be written and those stranded by a handler that gave
      up after its job row; each of them once. */
  lemma {:induction false} RecoverableIsHeld(steps: seq<Step>, id: Id)
    requires Feasible(steps) && After(steps).daemon != Down
    ensures var s := After(steps);
            && TimesKept(s, id) == (if Has(Recoverable(s.log), id) then 1 else 0)
            && (Has(Recoverable(s.log), id) <==> Has(Held(s), id) || id in s.dropped || id in s.stranded)
  {
    InvAlways(steps);
    TallyHas(Held(After(steps)), id);
    assert TimesKept(After(steps), id) == (if Has(Recoverable(After(steps).log), id) then 1 else 0);
  }

  // ---- Stranded jobs -------------------------------------------------------------------

  /** A row of the job sits in a meeting that does not decode. */
  ghost predicate InBadMeeting(log: seq<Event>, id: Id) {
    exists e :: e in log && About(e, id) && !AllReadable(Of(log, e.meeting))
  }

  lemma BadMeetingStays(log: seq<Event>, e: Event, id: Id)
    requires InBadMeeting(log, id)
    ensures InBadMeeting(log + [e], id)
  {
    var row :| row in log && About(row, id) && !AllReadable(Of(log, row.meeting));
    ReadableAppend(log, e, row.meeting);
    assert row in log + [e];
  }

  lemma AnswerFailsInBadMeeting(s: State)
    requires Inv(s) && Enabled(s, AnswerFails)
    ensures InBadMeeting(s.log, s.checking.value.id)
  {
    var job := s.checking.value;
    assert job in Held(s);
    HeldIsRecoverable(s, job);
    RecoverableIsOpen(s.log, job.id);
    var e :| e in s.log && About(e, job.id);
    assert Faithful(s.log, job) && ProperJobRow(e);
  }

  /** A step writes one row at most. */
  lemma OneRowAtMost(s: State, step: Step) returns (rows: seq<Event>)
    requires Enabled(s, step)
    ensures |rows| <= 1 && Do(s, step).log == s.log + rows && (rows != [] ==> rows == [rows[0]])
  {
    rows := Do(s, step).log[|s.log|..];
  }

  lemma StrandedStep(s: State, step: Step, id: Id)
    requires Inv(s) && Enabled(s, step) && (id in s.stranded ==> InBadMeeting(s.log, id))
    ensures id in Do(s, step).stranded ==> InBadMeeting(Do(s, step).log, id)
  {
    var t := Do(s, step);
    if step.AnswerFails? {
      AnswerFailsInBadMeeting(s);
    } else if id in t.stranded {
      var rows := OneRowAtMost(s, step);
      if rows != [] {
        BadMeetingStays(s.log, rows[0], id);
      }
    }
  }

  /** Only a meeting that does not decode strands a job. */
  lemma {:induction false} StrandedInBadMeeting(steps: seq<Step>, id: Id)
    requires Feasible(steps)
    ensures id in After(steps).stranded ==> InBadMeeting(After(steps).log, id)
  {
    if steps != [] {
      var init := steps[..|steps| - 1];
      InvAlways(init);
      StrandedInBadMeeting(init, id);
      StrandedStep(After(init), steps[|steps| - 1], id);
    }
  }

  /** With every failure row written and every meeting decodable, the recoverable jobs
      are exactly those in the daemon's hands. */
  lemma {:induction false} ReadableLedgerIsHeld(steps: seq<Step>, id: Id)
    requires Feasible(steps) && After(steps).daemon != Down && After(steps).dropped == {}
    requires forall m :: AllReadable(Of(After(steps).log, m))
    ensures Has(Recoverable(After(steps).log), id) <==> Has(Held(After(steps)), id)
  {
    RecoverableIsHeld(steps, id);
    StrandedInBadMeeting(steps, id);
  }

  /** The state after an approval's two appends, the handler still holding the lock. */
  function AskedState(s: State, id: Id, job: Id, prompt: Option<string>): State
    requires Enabled(s, ApproveCard(id)) && JobUnseen(s.log, job)
  {
    var card := FindLatest(s.log, id).proposal;
    var work := BuildJob(card, job, prompt);
    s.(log := s.log + [CardRow(Approve, WithStatus(card, Approved))] + [JobRow(Requested, work)],
       checking := Some(work))
  }

  lemma ApprovalAppends(steps: seq<Step>, id: Id, job: Id, prompt: Option<string>)
    requires Feasible(steps) && Enabled(After(steps), ApproveCard(id)) && JobUnseen(After(steps).log, job)
    ensures Feasible(steps + [ApproveCard(id)] + [RequestJob(job, prompt)])
    ensures After(steps + [ApproveCard(id)] + [RequestJob(job, prompt)]) == AskedState(After(steps), id, job, prompt)
  {
    Extend(steps, ApproveCard(id));
    Extend(steps + [ApproveCard(id)], RequestJob(job, prompt));
  }

  lemma TwoReadable(log: seq<Event>, a: Event, b: Event, meeting: Id)
    requires Readable(a.body) && Readable(b.body)
    ensures AllReadable(Of(log + [a] + [b], meeting)) <==> AllReadable(Of(log, meeting))
  {
    ReadableAppend(log, a, meeting);
    ReadableAppend(log + [a], b, meeting);
  }

  /** The meeting of the card decodes, as far as the ledger goes. */
  ghost predicate CardReadable(log: seq<Event>, id: Id)
    requires FindLatest(log, id).Newest?
  {
    AllReadable(Of(log, FindLatest(log, id).proposal.body.meeting))
  }

  lemma AskedMeeting(s: State, id: Id, job: Id, prompt: Option<string>)
    requires Enabled(s, ApproveCard(id)) && JobUnseen(s.log, job)
    ensures var t := AskedState(s, id, job, prompt);
            && t.daemon == Serving && t.checking.Some?
            && t.checking.value.body.meeting == FindLatest(s.log, id).proposal.body.meeting
            && (AllReadable(Of(t.log, t.checking.value.body.meeting)) <==>
                AllReadable(Of(s.log, FindLatest(s.log, id).proposal.body.meeting)))
  {
    var card := FindLatest(s.log, id).proposal;
    TwoReadable(s.log, CardRow(Approve, WithStatus(card, Approved)), JobRow(Requested, BuildJob(card, job, prompt)),
                card.body.meeting);
  }

  lemma AnswerEnabled(s: State)
    requires s.daemon == Serving && s.checking.Some?
    ensures Enabled(s, Answer) <==> AllReadable(Of(s.log, s.checking.value.body.meeting))
    ensures Enabled(s, AnswerFails) <==> !AllReadable(Of(s.log, s.checking.value.body.meeting))
  {
  }

  lemma AskedReadable(s: State, id: Id, job: Id, prompt: Option<string>)
    requires Enabled(s, ApproveCard(id)) && JobUnseen(s.log, job)
    ensures Enabled(AskedState(s, id, job, prompt), Answer) <==> CardReadable(s.log, id)
    ensures Enabled(AskedState(s, id, job, prompt), AnswerFails) <==> !CardReadable(s.log, id)
  {
    AskedMeeting(s, id, job, prompt);
    AnswerEnabled(AskedState(s, id, job, prompt));
  }

  /** The exact condition, in every reachable state: once an approval's two rows are
      written, the handler goes on to send the job if and only if the card's meeting
      decoded before the approval; otherwise it gives up. */
  lemma {:induction false} ApprovalSendsExactly(steps: seq<Step>, id: Id, job: Id, prompt: Option<string>)
    requires Feasible(steps) && Enabled(After(steps), ApproveCard(id)) && JobUnseen(After(steps).log, job)
    ensures var s := After(steps);
            var asked := AskedState(s, id, job, prompt);
            && Feasible(steps + [ApproveCard(id)] + [RequestJob(job, prompt)])
            && After(steps + [ApproveCard(id)] + [RequestJob(job, prompt)]) == asked
            && (Enabled(asked, Answer) <==> CardReadable(s.log, id))
            && (Enabled(asked, AnswerFails) <==> !CardReadable(s.log, id))
  {
    ApprovalAppends(steps, id, job, prompt);
    AskedReadable(After(steps), id, job, prompt);
  }

  /** A ledger of one card and one undecodable row of its meeting. */
  lemma DamagedMeeting(card: Proposal, damage: Event)
    requires damage.meeting == card.body.meeting && !Readable(damage.body) && !damage.body.ProposalEvent?
    ensures FindLatest([CardRow(Created, card)] + [damage], card.id) == Newest(card)
    ensures !AllReadable(Of([CardRow(Created, card)] + [damage], card.body.meeting))
  {
    FindLatestAppend([], CardRow(Created, card), card.id);
    assert [] + [CardRow(Created, card)] == [CardRow(Created, card)];
    FindLatestAppend([CardRow(Created, card)], damage, card.id);
    ReadableAppend([CardRow(Created, card)], damage, card.body.meeting);
  }

  lemma BootedRun() returns (steps: seq<Step>)
    ensures Feasible(steps) && After(steps) == INITIAL.(daemon := Serving)
  {
    assert Recoverable([]) == [];
    Extend([], Boot);
    Extend([] + [Boot], Serve);
    steps := [] + [Boot] + [Serve];
  }

  /** The daemon has seen one card and one row that does not decode, both in one
      meeting, and nothing else. */
  lemma DamagedRun(card: Proposal, damage: Event) returns (steps: seq<Step>)
    requires card.body.status == Proposed
    requires !damage.body.JobEvent? && !damage.body.ProposalEvent? && Outside([], damage.body)
    ensures Feasible(steps)
    ensures After(steps) == INITIAL.(log := [CardRow(Created, card)] + [damage], daemon := Serving)
  {
    var booted := BootedRun();
    Extend(booted, CreateCard(card));
    steps := booted + [CreateCard(card)];
    assert [] + [CardRow(Created, card)] == [CardRow(Created, card)];
    Extend(steps, Foreign(damage));
    steps := steps + [Foreign(damage)];
  }

  /** Whenever a card's meeting does not decode, approving the card strands its job: the
      job is recoverable and no longer in the daemon's hands. */
  lemma {:induction false} ApprovalStrands(steps: seq<Step>, id: Id, job: Id, prompt: Option<string>)
    returns (after: seq<Step>)
    requires Feasible(steps) && Enabled(After(steps), ApproveCard(id)) && JobUnseen(After(steps).log, job)
    requires !CardReadable(After(steps).log, id)
    ensures Feasible(after)
    ensures var s, t := After(steps), After(after);
            && t.daemon == Serving && t.dropped == s.dropped && t.orphaned == s.orphaned
            && t.queue == s.queue && t.runner == s.runner && t.unsent == s.unsent && t.checking.None?
            && t.stranded == s.stranded + {job} && Has(Recoverable(t.log), job)
  {
    ApprovalSendsExactly(steps, id, job, prompt);
    after := GiveUp(steps + [ApproveCard(id)] + [RequestJob(job, prompt)]);
    RecoverableIsHeld(after, job);
  }

  /** An undecodable row is enough: no append fails and the daemon stays up, yet the
      approved job is recoverable and nowhere in the daemon's hands, until it restarts. */
  lemma {:induction false} BadMeetingStrandsJob(card: Proposal, damage: Event, job: Id, prompt: Option<string>)
    returns (steps: seq<Step>)
    requires card.body.status == Proposed && damage.meeting == card.body.meeting && !Readable(damage.body)
    requires !damage.body.JobEvent? && !damage.body.ProposalEvent? && Outside([], damage.body)
    ensures Feasible(steps)
    ensures var s := After(steps);
            && s.daemon == Serving && s.dropped == {} && s.orphaned == multiset{}
            && Held(s) == [] && s.stranded == {job} && Has(Recoverable(s.log), job)
  {
    var before := DamagedRun(card, damage);
    DamagedMeeting(card, damage);
    assert JobUnseen(After(before).log, job);
    steps := ApprovalStrands(before, card.id, job, prompt);
  }

  /** The handler returns its error. */
  lemma GiveUp(asked: seq<Step>) returns (steps: seq<Step>)
    requires Feasible(asked) && Enabled(After(asked), AnswerFails)
    ensures Feasible(steps) && After(steps) == Do(After(asked), AnswerFails)
  {
    Extend(asked, AnswerFails);
    steps := asked + [AnswerFails];
  }

  /** In every reachable state a meeting's projected running jobs are the recoverable
      jobs of that meeting, in the same order; the summary counts them. */
  lemma {:induction false} ProjectionAgreesWithRecovery(steps: seq<Step>, meeting: Id)
    requires Feasible(steps)
    ensures var log := After(steps).log;
            && LiveJobs(UpsertAll(JobStream(Of(log, meeting)))) == InMeeting(Recoverable(log), meeting)
            && (Project(log, meeting).Some? ==>
                  |LiveJobs(Project(log, meeting).value.jobs)| == |InMeeting(Recoverable(log), meeting)|)
  {
    InvAlways(steps);
    RecoverableIsProjectedLive(After(steps).log, meeting);
  }

  /** No prompt written to the ledger holds a token that looks like a secret, and the
      prompt dispatched to a worker is the one in the ledger. */
  lemma {:induction false} PromptsAreRedacted(steps: seq<Step>)
    requires Feasible(steps)
    ensures forall e | e in After(steps).log && e.body.JobEvent? && e.body.job.Good? ::
              forall w | w in Split(e.body.job.value.body.prompt, SPACE) :: !LooksSecret(Trim(w))
    ensures var r := After(steps).runner;
            r.Busy? ==> RedactPrompt(r.job.body.prompt) == r.job.body.prompt
  {
    InvAlways(steps);
    var s := After(steps);
    forall e | e in s.log && e.body.JobEvent? && e.body.job.Good?
      ensures forall w | w in Split(e.body.job.value.body.prompt, SPACE) :: !LooksSecret(Trim(w))
    {
      RedactPromptTokens(e.body.job.value.body.prompt);
    }
    if s.runner.Busy? {
      assert s.runner.job in Held(s);
    }
  }

  // ---- Approvals -------------------------------------------------------------------------

  predicate ApprovedNow(log: seq<Event>, card: Id) {
    FindLatest(log, card).Newest? && FindLatest(log, card).proposal.body.status == Approved
  }

  /** The last decodable row about the card, whatever damage came after it. */
  function LastCard(log: seq<Event>, card: Id): Option<Proposal> {
    KeyedList.Latest(ProposalStream(log), card)
  }

  predicate ApprovedLast(log: seq<Event>, card: Id) {
    LastCard(log, card).Some? && LastCard(log, card).value.body.status == Approved
  }

  lemma LastCardAppend(log: seq<Event>, e: Event, card: Id)
    ensures LastCard(log + [e], card) == if CardRowAbout(e, card) then Some(e.body.proposal.value)
                                         else LastCard(log, card)
  {
    var before, after := ProposalStream(log), ProposalStream(log + [e]);
    assert (log + [e])[..|log|] == log;
    if ProposalIn(e.body) != [] {
      assert after[..|after| - 1] == before && after[|after| - 1] == e.body.proposal.value;
    } else {
      assert after == before;
    }
  }

  /** The backward scan finds the last decodable row, unless damage stops it first. */
  lemma {:induction false} FoundIsLast(log: seq<Event>, card: Id)
    requires FindLatest(log, card) != Unreadable
    ensures LastCard(log, card) == if FindLatest(log, card).Newest? then Some(FindLatest(log, card).proposal) else None
  {
    if log != [] {
      var init, last := log[..|log| - 1], log[|log| - 1];
      assert log == init + [last];
      LastCardAppend(init, last, card);
      if !CardRowAbout(last, card) {
        FoundIsLast(init, card);
      }
    }
  }

  lemma {:induction false} UnseenHasNoCard(log: seq<Event>, card: Id)
    requires CardUnseen(log, card)
    ensures LastCard(log, card) == None
  {
    if log != [] {
      var init, last := log[..|log| - 1], log[|log| - 1];
      assert log == init + [last] && last in log;
      assert forall e | e in init :: e in log;
      UnseenHasNoCard(init, card);
      LastCardAppend(init, last, card);
    }
  }

  function Pending(s: State, card: Id): nat {
    if s.approving.Some? && s.approving.value.id == card then 1 else 0
  }

  ghost predicate CardInv(s: State, card: Id) {
    && Count(s.log, ApprovalOf(card))
       <= Count(s.log, IgnoreOf(card)) + (if ApprovedLast(s.log, card) then 1 else 0)
    && Count(s.log, RequestFor(card)) + Pending(s, card) + s.orphaned[card] == Count(s.log, ApprovalOf(card))
  }

  lemma FindLatestAppend(log: seq<Event>, e: Event, card: Id)
    ensures !e.body.ProposalEvent? ==> FindLatest(log + [e], card) == FindLatest(log, card)
    ensures e.body.ProposalEvent? && e.body.proposal.Bad? ==> FindLatest(log + [e], card) == Unreadable
    ensures e.body.ProposalEvent? && e.body.proposal.Good? ==>
              FindLatest(log + [e], card) == if e.body.proposal.value.id == card then Newest(e.body.proposal.value)
                                             else FindLatest(log, card)
  {
    assert (log + [e])[..|log|] == log;
  }

  lemma {:induction false} FindLatestSeen(log: seq<Event>, card: Id)
    requires FindLatest(log, card).Newest?
    ensures FindLatest(log, card).proposal.id == card && !CardUnseen(log, card)
  {
    var init, last := log[..|log| - 1], log[|log| - 1];
    if !Stops(last.body, card) {
      FindLatestSeen(init, card);
      var e :| e in init && e.body.ProposalEvent? && e.body.proposal.Good? && e.body.proposal.value.id == card;
      assert e in log;
    } else {
      assert last in log;
    }
  }

  lemma WriteCounts(log: seq<Event>, e: Event, card: Id)
    ensures Count(log + [e], ApprovalOf(card)) == Count(log, ApprovalOf(card))
              + (if Tagged(e, ApprovalOf(card)) then 1 else 0)
    ensures Count(log + [e], IgnoreOf(card)) == Count(log, IgnoreOf(card))
              + (if Tagged(e, IgnoreOf(card)) then 1 else 0)
    ensures Count(log + [e], RequestFor(card)) == Count(log, RequestFor(card))
              + (if Tagged(e, RequestFor(card)) then 1 else 0)
  {
    CountAppend(log, e, ApprovalOf(card));
    CountAppend(log, e, IgnoreOf(card));
    CountAppend(log, e, RequestFor(card));
  }

  /** A row that is neither a decodable card row nor a job request changes no card count. */
  lemma QuietWrite(s: State, e: Event, t: State, card: Id)
    requires CardInv(s, card) && t.approving == s.approving && t.orphaned == s.orphaned
    requires t.log == s.log + [e] && ProposalIn(e.body) == [] && !JobVerbIs(e, Requested)
    ensures CardInv(t, card)
  {
    WriteCounts(s.log, e, card);
    LastCardAppend(s.log, e, card);
  }

  /** A card row: a new proposal, or the latest state of the card decided once more. */
  lemma CardWrite(s: State, verb: ProposalVerb, c: Proposal, t: State, card: Id)
    requires CardInv(s, card) && s.approving.None? && t.orphaned == s.orphaned
    requires t.log == s.log + [CardRow(verb, c)]
    requires match verb
             case Created => c.body.status == Proposed && LastCard(s.log, c.id).None? && t.approving.None?
             case Ignore => c.body.status == Ignored && t.approving.None?
             case Approve => c.body.status == Approved && !ApprovedLast(s.log, c.id)
                             && t.approving.Some? && t.approving.value.id == c.id
    ensures CardInv(t, card)
  {
    WriteCounts(s.log, CardRow(verb, c), card);
    LastCardAppend(s.log, CardRow(verb, c), card);
  }

  lemma CardStep(s: State, step: Step, card: Id)
    requires CardInv(s, card) && Enabled(s, step)
    requires step.CreateCard? || step.IgnoreCard? || step.ApproveCard?
    ensures CardInv(Do(s, step), card)
  {
    match step
    case CreateCard(c) =>
      UnseenHasNoCard(s.log, c.id);
      CardWrite(s, Created, c, Do(s, step), card);
    case IgnoreCard(id) =>
      CardWrite(s, Ignore, WithStatus(FindLatest(s.log, id).proposal, Ignored), Do(s, step), card);
    case ApproveCard(id) =>
      FindLatestSeen(s.log, id);
      FoundIsLast(s.log, id);
      CardWrite(s, Approve, WithStatus(FindLatest(s.log, id).proposal, Approved), Do(s, step), card);
  }

  lemma CardRequest(s: State, id: Id, prompt: Option<string>, card: Id)
    requires CardInv(s, card) && Enabled(s, RequestJob(id, prompt))
    ensures CardInv(Do(s, RequestJob(id, prompt)), card)
  {
    RequestWrite(s, BuildJob(s.approving.value, id, prompt), Do(s, RequestJob(id, prompt)), card);
  }

  /** The approval in progress gets its job row. */
  lemma RequestWrite(s: State, work: Job, t: State, card: Id)
    requires CardInv(s, card) && s.approving.Some? && work.body.proposal == Some(s.approving.value.id)
    requires t.log == s.log + [JobRow(Requested, work)] && t.approving.None? && t.orphaned == s.orphaned
    ensures CardInv(t, card)
  {
    WriteCounts(s.log, JobRow(Requested, work), card);
    LastCardAppend(s.log, JobRow(Requested, work), card);
  }

  /** Every other step writes nothing, or one row that is no decodable card row and no
      request. */
  lemma QuietStep(s: State, step: Step) returns (rows: seq<Event>)
    requires Enabled(s, step)
    requires !step.CreateCard? && !step.IgnoreCard? && !step.ApproveCard? && !step.RequestJob?
    requires !step.RequestFails? && !step.Crash?
    ensures var t := Do(s, step);
            && t.log == s.log + rows && t.approving == s.approving && t.orphaned == s.orphaned
            && (rows == [] || (|rows| == 1 && ProposalIn(rows[0].body) == [] && !JobVerbIs(rows[0], Requested)))
  {
    rows := Do(s, step).log[|s.log|..];
  }

  lemma QuietKeeps(s: State, rows: seq<Event>, t: State, card: Id)
    requires CardInv(s, card) && t.approving == s.approving && t.orphaned == s.orphaned && t.log == s.log + rows
    requires rows == [] || (|rows| == 1 && ProposalIn(rows[0].body) == [] && !JobVerbIs(rows[0], Requested))
    ensures CardInv(t, card)
  {
    if rows != [] {
      assert rows == [rows[0]];
      QuietWrite(s, rows[0], t, card);
    } else {
      assert t.log == s.log;
    }
  }

  /** An approval cut short between its rows is counted among the orphaned. */
  lemma CardInterrupted(s: State, step: Step, card: Id)
    requires CardInv(s, card) && Enabled(s, step) && (step.RequestFails? || step.Crash?)
    ensures CardInv(Do(s, step), card)
  {
  }

  lemma CardInvStep(s: State, step: Step, card: Id)
    requires CardInv(s, card) && Enabled(s, step)
    ensures CardInv(Do(s, step), card)
  {
    if step.CreateCard? || step.IgnoreCard? || step.ApproveCard? {
      CardStep(s, step, card);
    } else if step.RequestJob? {
      CardRequest(s, step.job, step.prompt, card);
    } else if step.RequestFails? || step.Crash? {
      CardInterrupted(s, step, card);
    } else {
      var rows := QuietStep(s, step);
      QuietKeeps(s, rows, Do(s, step), card);
    }
  }

  lemma {:induction false} CardInvAlways(steps: seq<Step>, card: Id)
    requires Feasible(steps)
    ensures CardInv(After(steps), card)
  {
    if steps != [] {
      CardInvAlways(steps[..|steps| - 1], card);
      CardInvStep(After(steps[..|steps| - 1]), steps[|steps| - 1], card);
    }
  }

  /** A card is approved at most once more than it is ignored, and asks for at most as
      many jobs as it is approved: exactly as many, once the approval in progress and
      those cut short between their two appends are set aside. */
  lemma {:induction false} ApprovalBounds(steps: seq<Step>, card: Id)
    requires Feasible(steps)
    ensures var s := After(steps);
            && Count(s.log, ApprovalOf(card)) <= Count(s.log, IgnoreOf(card)) + 1
            && Count(s.log, RequestFor(card)) <= Count(s.log, ApprovalOf(card))
            && (s.approving.None? ==>
                  Count(s.log, ApprovalOf(card)) - Count(s.log, RequestFor(card)) == s.orphaned[card])
  {
    CardInvAlways(steps, card);
  }

  /** A crash between the two appends leaves the card approved with no job for that
      approval; once the daemon is back, approving it again is refused. */
  lemma {:induction false} CrashOrphansApproval(steps: seq<Step>, card: Id)
    requires Feasible(steps) && Enabled(After(steps), ApproveCard(card))
    ensures Feasible(steps + [ApproveCard(card)] + [Crash] + [Boot])
    ensures var s, t := After(steps), After(steps + [ApproveCard(card)] + [Crash] + [Boot]);
            && ApprovedNow(t.log, card)
            && Count(t.log, RequestFor(card)) == Count(s.log, RequestFor(card))
            && Recoverable(t.log) == Recoverable(s.log)
            && !Enabled(t.(daemon := Serving), ApproveCard(card))
  {
    var s := After(steps);
    Extend(steps, ApproveCard(card));
    Extend(steps + [ApproveCard(card)], Crash);
    Extend(steps + [ApproveCard(card)] + [Crash], Boot);
    FindLatestSeen(s.log, card);
    var row := CardRow(Approve, WithStatus(FindLatest(s.log, card).proposal, Approved));
    FindLatestAppend(s.log, row, card);
    WriteCounts(s.log, row, card);
    RecoverableAppend(s.log, row);
  }

  // ---- Executions --------------------------------------------------------------------------

  /** An artifact of the job is filed and the job has not been started since. */
  ghost predicate ArtifactSinceStart(log: seq<Event>, job: Id) {
    exists a | 0 <= a < |log| ::
      Tagged(log[a], ArtifactOf(job)) && forall b | a < b < |log| :: !Tagged(log[b], StartOf(job))
  }

  ghost predicate CompletionsBacked(log: seq<Event>, job: Id) {
    forall k | 0 <= k < |log| && Tagged(log[k], CompletionOf(job)) :: ArtifactSinceStart(log[..k], job)
  }

  function Unfiled(s: State, job: Id): nat {
    if s.runner.Busy? && s.runner.job.id == job && (s.runner.phase == Begun || s.runner.phase == Launched) then 1 else 0
  }

  ghost predicate RunInv(s: State, job: Id) {
    && Count(s.log, ArtifactOf(job)) + Unfiled(s, job) <= Count(s.log, StartOf(job))
    && CompletionsBacked(s.log, job)
    && (s.runner.Busy? && s.runner.job.id == job && s.runner.phase == Filed ==> ArtifactSinceStart(s.log, job))
  }

  lemma ArtifactAppend(log: seq<Event>, e: Event, job: Id)
    ensures ArtifactSinceStart(log + [e], job) <==>
            Tagged(e, ArtifactOf(job)) || (ArtifactSinceStart(log, job) && !Tagged(e, StartOf(job)))
  {
    var after := log + [e];
    if Tagged(e, ArtifactOf(job)) {
      assert Tagged(after[|log|], ArtifactOf(job));
    } else if ArtifactSinceStart(log, job) && !Tagged(e, StartOf(job)) {
      var a :| 0 <= a < |log| && Tagged(log[a], ArtifactOf(job))
               && forall b | a < b < |log| :: !Tagged(log[b], StartOf(job));
      assert Tagged(after[a], ArtifactOf(job));
      forall b | a < b < |after| ensures !Tagged(after[b], StartOf(job)) {
        assert b < |log| ==> after[b] == log[b];
      }
    }
    if ArtifactSinceStart(after, job) && !Tagged(e, ArtifactOf(job)) {
      var a :| 0 <= a < |after| && Tagged(after[a], ArtifactOf(job))
               && forall b | a < b < |after| :: !Tagged(after[b], StartOf(job));
      assert after[|log|] == e && Tagged(log[a], ArtifactOf(job));
      assert forall b | a < b < |log| :: after[b] == log[b];
    }
  }

  lemma BackedAppend(log: seq<Event>, e: Event, job: Id)
    requires CompletionsBacked(log, job)
    requires Tagged(e, CompletionOf(job)) ==> ArtifactSinceStart(log, job)
    ensures CompletionsBacked(log + [e], job)
  {
    var after := log + [e];
    forall k | 0 <= k < |after| && Tagged(after[k], CompletionOf(job)) ensures ArtifactSinceStart(after[..k], job) {
      if k < |log| {
        assert after[k] == log[k] && after[..k] == log[..k];
      } else {
        assert after[..k] == log;
      }
    }
  }

  /** One row, with the runner moving from one phase to the next. */
  lemma RunWrite(s: State, e: Event, t: State, job: Id)
    requires RunInv(s, job) && t.log == s.log + [e]
    requires Tagged(e, CompletionOf(job)) ==> s.runner.Busy? && s.runner.job.id == job && s.runner.phase == Filed
    requires t.runner.Busy? && t.runner.job.id == job && t.runner.phase == Filed ==>
               Tagged(e, ArtifactOf(job)) || (s.runner == t.runner && !Tagged(e, StartOf(job)))
    requires Unfiled(t, job) + (if Tagged(e, ArtifactOf(job)) then 1 else 0)
             <= Unfiled(s, job) + (if Tagged(e, StartOf(job)) then 1 else 0)
    ensures RunInv(t, job)
  {
    CountAppend(s.log, e, ArtifactOf(job));
    CountAppend(s.log, e, StartOf(job));
    BackedAppend(s.log, e, job);
    ArtifactAppend(s.log, e, job);
  }

  lemma RunInvRunner(s: State, step: Step, job: Id)
    requires RunInv(s, job) && Enabled(s, step)
    requires step.Begin? || step.Launch? || step.File?
    ensures RunInv(Do(s, step), job)
  {
    var t := Do(s, step);
    RunWrite(s, t.log[|s.log|], t, job);
  }

  lemma RunInvEnd(s: State, step: Step, job: Id)
    requires RunInv(s, job) && Enabled(s, step) && (step.Finish? || step.FailRun?)
    ensures RunInv(Do(s, step), job)
  {
    var t := Do(s, step);
    RunWrite(s, t.log[|s.log|], t, job);
  }

  /** The other steps write no start, artifact or completion row and leave the runner
      as it is, or resting, errored or just handed a job. */
  lemma OtherRows(s: State, step: Step) returns (rows: seq<Event>)
    requires Enabled(s, step)
    requires !step.Begin? && !step.Launch? && !step.File? && !step.Finish? && !step.FailRun?
    ensures var t := Do(s, step);
            && t.log == s.log + rows
            && (t.runner == s.runner || t.runner == Resting || t.runner.phase == Received || t.runner.phase == Errored)
    ensures rows == [] || (|rows| == 1 && NoRunRow(rows[0]))
  {
    rows := Do(s, step).log[|s.log|..];
  }

  predicate NoRunRow(e: Event) {
    && !JobVerbIs(e, JobVerb.Started) && !JobVerbIs(e, Complete)
    && !(e.body.ArtifactCreated? && e.body.artifact.Good?)
  }

  lemma RunKeeps(s: State, rows: seq<Event>, t: State, job: Id)
    requires RunInv(s, job) && t.log == s.log + rows && (rows == [] || (|rows| == 1 && NoRunRow(rows[0])))
    requires t.runner == s.runner || t.runner == Resting || t.runner.phase == Received || t.runner.phase == Errored
    ensures RunInv(t, job)
  {
    if rows != [] {
      assert rows == [rows[0]];
      RunWrite(s, rows[0], t, job);
    } else {
      assert t.log == s.log;
    }
  }

  lemma RunInvOther(s: State, step: Step, job: Id)
    requires RunInv(s, job) && Enabled(s, step)
    requires !step.Begin? && !step.Launch? && !step.File? && !step.Finish? && !step.FailRun?
    ensures RunInv(Do(s, step), job)
  {
    var rows := OtherRows(s, step);
    RunKeeps(s, rows, Do(s, step), job);
  }

  lemma RunInvStep(s: State, step: Step, job: Id)
    requires RunInv(s, job) && Enabled(s, step)
    ensures RunInv(Do(s, step), job)
  {
    if step.Begin? || step.Launch? || step.File? {
      RunInvRunner(s, step, job);
    } else if step.Finish? || step.FailRun? {
      RunInvEnd(s, step, job);
    } else {
      RunInvOther(s, step, job);
    }
  }

  lemma {:induction false} RunInvAlways(steps: seq<Step>, job: Id)
    requires Feasible(steps)
    ensures RunInv(After(steps), job)
  {
    if steps != [] {
      RunInvAlways(steps[..|steps| - 1], job);
      RunInvStep(After(steps[..|steps| - 1]), steps[|steps| - 1], job);
    }
  }

  /** Every completion has an artifact of the same execution before it, and a job never
      has more artifacts than starts. */
  lemma {:induction false} CompletionHasArtifact(steps: seq<Step>, job: Id)
    requires Feasible(steps)
    ensures var log := After(steps).log;
            && (forall k | 0 <= k < |log| && Tagged(log[k], CompletionOf(job)) :: ArtifactSinceStart(log[..k], job))
            && Count(log, ArtifactOf(job)) <= Count(log, StartOf(job))
  {
    RunInvAlways(steps, job);
  }

  /** A crash after the artifact row and before the completion row makes the daemon run
      the job again: it is re-queued although its artifact exists. */
  lemma {:induction false} CrashRerunsFiledJob(steps: seq<Step>)
    requires Feasible(steps) && After(steps).runner.Busy? && After(steps).runner.phase == Filed
    ensures Feasible(steps + [Crash] + [Boot])
    ensures var job, t := After(steps).runner.job.id, After(steps + [Crash] + [Boot]);
            && t.daemon.Recovering? && Has(t.daemon.todo, job)
            && Count(t.log, ArtifactOf(job)) >= 1
  {
    var s := After(steps);
    InvAlways(steps);
    RunInvAlways(steps, s.runner.job.id);
    assert s.runner.job in Held(s);
    HeldIsRecoverable(s, s.runner.job);
    Extend(steps, Crash);
    Extend(steps + [Crash], Boot);
    CountNone(s.log, ArtifactOf(s.runner.job.id));
    var a :| 0 <= a < |s.log| && Tagged(s.log[a], ArtifactOf(s.runner.job.id));
    assert s.log[a] in s.log;
  }
}
