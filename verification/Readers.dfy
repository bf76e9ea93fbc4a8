/** Four scans read one ledger. Here is what each finds, stated on the ledger
    itself, and where they must agree. */
module Readers {
  import opened Domain
  import opened KeyedList
  import opened Replay

  // ---- The recovery scan -------------------------------------------------------

  /** The row says something about the job: its payload decodes to that job, or it
      is a terminal row whose undecodable payload still shows the id. */
  predicate SpeaksOf(b: Body, id: Id) {
    match b
    case JobEvent(_, Good(job)) => job.id == id
    case JobEvent(kind, Bad(Some(seen))) => kind in {Complete, Fail, Cancel} && seen == id
    case _ => false
  }

  predicate SaysLive(b: Body) {
    && b.JobEvent? && b.job.Good?
    && b.kind in {Requested, JobVerb.Started, Progress} && b.job.value.body.status in {Queued, Running}
  }

  ghost predicate LastWord(log: seq<Event>, id: Id, k: int) {
    0 <= k < |log| && SpeaksOf(log[k].body, id) && forall i | k < i < |log| :: !SpeaksOf(log[i].body, id)
  }

  lemma LastWordNext(log: seq<Event>, id: Id, k: int)
    requires log != [] && k < |log| - 1
    ensures LastWord(log, id, k) <==> LastWord(log[..|log| - 1], id, k) && !SpeaksOf(log[|log| - 1].body, id)
  {
    var init := log[..|log| - 1];
    if LastWord(log, id, k) {
      assert forall i | k < i < |init| :: init[i] == log[i];
    } else if LastWord(init, id, k) && !SpeaksOf(log[|log| - 1].body, id) {
      forall i | k < i < |log| ensures !SpeaksOf(log[i].body, id) {
        assert i < |init| ==> init[i] == log[i];
      }
    }
  }

  /** What a listing says of one job when it follows the last word on it. */
  ghost predicate FollowsLastWord(jobs: seq<Job>, log: seq<Event>, id: Id) {
    && (Has(jobs, id) <==> exists k :: LastWord(log, id, k) && SaysLive(log[k].body))
    && (forall k | LastWord(log, id, k) && SaysLive(log[k].body) :: Lookup(jobs, id) == Some(log[k].body.job.value))
  }

  lemma WordStands(jobs: seq<Job>, next: seq<Job>, log: seq<Event>, id: Id)
    requires log != [] && !SpeaksOf(log[|log| - 1].body, id)
    requires Has(next, id) == Has(jobs, id) && Lookup(next, id) == Lookup(jobs, id)
    requires FollowsLastWord(jobs, log[..|log| - 1], id)
    ensures FollowsLastWord(next, log, id)
  {
    var init := log[..|log| - 1];
    forall k ensures LastWord(log, id, k) <==> LastWord(init, id, k) {
      if k < |log| - 1 {
        LastWordNext(log, id, k);
      }
    }
    if k :| LastWord(init, id, k) && SaysLive(init[k].body) {
      assert LastWord(log, id, k) && SaysLive(log[k].body);
    }
  }

  lemma NewWord(next: seq<Job>, log: seq<Event>, id: Id)
    requires log != [] && SpeaksOf(log[|log| - 1].body, id)
    requires var b := log[|log| - 1].body;
             if SaysLive(b) then Has(next, id) && Lookup(next, id) == Some(b.job.value) else !Has(next, id)
    ensures FollowsLastWord(next, log, id)
  {
    assert LastWord(log, id, |log| - 1);
    assert forall k | LastWord(log, id, k) :: k == |log| - 1;
  }

  /** For every ledger, malformed rows included: a job is recoverable exactly when
      the last row that speaks of it is live, it is listed once, and the payload
      listed is that row's. */
  lemma {:induction false} RecoverableExactly(log: seq<Event>, id: Id)
    ensures Distinct(Recoverable(log))
    ensures Has(Recoverable(log), id) <==> exists k :: LastWord(log, id, k) && SaysLive(log[k].body)
    ensures forall k | LastWord(log, id, k) && SaysLive(log[k].body) ::
              Lookup(Recoverable(log), id) == Some(log[k].body.job.value)
  {
    if log != [] {
      var init, b := log[..|log| - 1], log[|log| - 1].body;
      RecoverableExactly(init, id);
      var jobs, next := Recoverable(init), RecoveryStep(Recoverable(init), b);
      RecoveryStepFacts(jobs, b, id);
      assert FollowsLastWord(jobs, init, id);
      if SpeaksOf(b, id) {
        NewWord(next, log, id);
      } else {
        WordStands(jobs, next, log, id);
      }
    }
  }

  lemma RecoveryStepFacts(jobs: seq<Job>, b: Body, id: Id)
    requires Distinct(jobs)
    ensures Distinct(RecoveryStep(jobs, b))
    ensures !SpeaksOf(b, id) ==>
              Has(RecoveryStep(jobs, b), id) == Has(jobs, id) && Lookup(RecoveryStep(jobs, b), id) == Lookup(jobs, id)
    ensures SpeaksOf(b, id) && SaysLive(b) ==>
              Has(RecoveryStep(jobs, b), id) && Lookup(RecoveryStep(jobs, b), id) == Some(b.job.value)
    ensures SpeaksOf(b, id) && !SaysLive(b) ==> !Has(RecoveryStep(jobs, b), id)
  {
    match b
    case JobEvent(kind, Good(job)) =>
      if kind.Terminal() || !job.body.status.Live() {
        RemoveFacts(jobs, job.id, id);
        RemoveDistinct(jobs, job.id);
      } else {
        UpsertFacts(jobs, job, id);
        UpsertDistinct(jobs, job);
      }
    case JobEvent(kind, Bad(Some(seen))) =>
      RemoveFacts(jobs, seen, id);
      RemoveDistinct(jobs, seen);
    case _ =>
  }

  // ---- The backward proposal scan ----------------------------------------------

  /** The scan stops here: a proposal row that is about the id, or undecodable. */
  predicate Stops(b: Body, id: Id) {
    b.ProposalEvent? && (b.proposal.Good? ==> b.proposal.value.id == id)
  }

  lemma {:induction false} FindLatestExactly(log: seq<Event>, id: Id)
    ensures FindLatest(log, id) == Missing <==> forall i | 0 <= i < |log| :: !Stops(log[i].body, id)
    ensures forall k | 0 <= k < |log| && Stops(log[k].body, id)
                       && (forall i | k < i < |log| :: !Stops(log[i].body, id)) ::
              FindLatest(log, id) == match log[k].body.proposal case Good(p) => Newest(p) case Bad(_) => Unreadable
  {
    if log != [] {
      var n := |log| - 1;
      FindLatestExactly(log[..n], id);
      assert forall i | 0 <= i < n :: log[..n][i] == log[i];
      if !Stops(log[n].body, id) {
        assert FindLatest(log, id) == FindLatest(log[..n], id);
      }
    }
  }

  /** Backward scan equals forward fold: unless an undecodable row stops it, the
      scan returns the entry the projection of the card's meeting shows. */
  lemma {:induction false} ScanEqualsFold(log: seq<Event>, id: Id, meeting: Id)
    requires FindLatest(log, id) != Unreadable
    requires forall e | e in log && e.body.ProposalEvent? && e.body.proposal.Good? && e.body.proposal.value.id == id ::
               e.meeting == meeting
    ensures FindLatest(log, id) ==
            match Lookup(UpsertAll(ProposalStream(Of(log, meeting))), id)
            case None => Missing
            case Some(p) => Newest(p)
  {
    UpsertAllMeaning(ProposalStream(Of(log, meeting)), id);
    ScanEqualsLatest(log, id, meeting);
  }

  lemma {:induction false} ScanEqualsLatest(log: seq<Event>, id: Id, meeting: Id)
    requires FindLatest(log, id) != Unreadable
    requires forall e | e in log && e.body.ProposalEvent? && e.body.proposal.Good? && e.body.proposal.value.id == id ::
               e.meeting == meeting
    ensures FindLatest(log, id) ==
            match KeyedList.Latest(ProposalStream(Of(log, meeting)), id)
            case None => Missing
            case Some(p) => Newest(p)
  {
    if log != [] {
      var n := |log| - 1;
      var init, last := log[..n], log[n];
      assert init + [last] == log;
      StreamsAppend(init, last, meeting);
      var before, after := ProposalStream(Of(init, meeting)), ProposalStream(Of(log, meeting));
      if last.meeting == meeting && ProposalIn(last.body) != [] {
        assert after[..|after| - 1] == before && after[|after| - 1] == last.body.proposal.value;
      } else {
        assert after == before;
      }
      if !Stops(last.body, id) {
        ScanEqualsLatest(init, id, meeting);
      }
    }
  }

  // ---- Recovery against the projected job list -----------------------------------

  function LiveJobs(jobs: seq<Job>): seq<Job> {
    if jobs == [] then []
    else (if jobs[0].body.status.Live() then [jobs[0]] else []) + LiveJobs(jobs[1..])
  }

  function InMeeting(jobs: seq<Job>, meeting: Id): seq<Job> {
    if jobs == [] then []
    else (if jobs[0].body.meeting == meeting then [jobs[0]] else []) + InMeeting(jobs[1..], meeting)
  }

  /** A job row as the daemon writes it, if it decodes at all: it sits in the job's
      meeting, and row type and status agree on whether the job is over. */
  predicate ProperJobRow(e: Event) {
    e.body.JobEvent? && e.body.job.Good? ==>
      && e.body.job.value.body.meeting == e.meeting
      && (e.body.kind.Terminal() <==> !e.body.job.value.body.status.Live())
  }

  ghost predicate About(e: Event, id: Id) {
    e.body.JobEvent? && e.body.job.Good? && e.body.job.value.id == id
  }

  /** A terminal row that does not decode, but shows this id. */
  predicate Damaged(e: Event, id: Id) {
    e.body.JobEvent? && e.body.job.Bad? && SpeaksOf(e.body, id)
  }

  /** The shape of every ledger the protocol reaches: proper rows, nothing about a
      job after its terminal row, one job never changes meeting, and a terminal row that
      does not decode is about no job with rows that do. */
  ghost predicate Settled(log: seq<Event>) {
    && (forall e | e in log :: ProperJobRow(e))
    && (forall a, b, id | a in log && b in log && Damaged(a, id) :: !About(b, id))
    && (forall i, j, id | 0 <= i < j < |log| && About(log[i], id) && About(log[j], id) ::
          !log[i].body.kind.Terminal() && log[i].meeting == log[j].meeting)
  }

  lemma SettledPrefix(log: seq<Event>)
    requires log != [] && Settled(log)
    ensures Settled(log[..|log| - 1])
  {
    var init := log[..|log| - 1];
    assert forall e | e in init :: e in log;
    assert forall i | 0 <= i < |init| :: init[i] == log[i];
  }

  /** A last row that is no decodable job row leaves the listing alone. */
  lemma NoJobRow(log: seq<Event>)
    requires log != [] && Settled(log) && JobIn(log[|log| - 1].body) == []
    ensures Recoverable(log) == Recoverable(log[..|log| - 1])
  {
    var init, last := log[..|log| - 1], log[|log| - 1];
    if last.body.JobEvent? && last.body.kind.Terminal() && last.body.job.readableId.Some? {
      var id := last.body.job.readableId.value;
      assert Damaged(last, id) && last in log;
      RecoverableExactly(init, id);
      forall k | 0 <= k < |init| ensures !(SpeaksOf(init[k].body, id) && SaysLive(init[k].body)) {
        assert init[k] in log && !About(init[k], id);
      }
      RemoveAbsent(Recoverable(init), id);
    }
  }

  /** On such ledgers the recovery scan, cut down to one meeting, is the projected
      job list cut down to queued and running jobs: same jobs, same order. */
  lemma {:induction false} RecoverableIsProjectedLive(log: seq<Event>, meeting: Id)
    requires Settled(log)
    ensures InMeeting(Recoverable(log), meeting) == LiveJobs(UpsertAll(JobStream(Of(log, meeting))))
  {
    if log == [] {
      return;
    }
    var n := |log| - 1;
    var init, last := log[..n], log[n];
    assert init + [last] == log;
    SettledPrefix(log);
    RecoverableIsProjectedLive(init, meeting);
    StreamsAppend(init, last, meeting);
    assert last in log;
    if JobIn(last.body) == [] {
      assert JobStream(Of(log, meeting)) == JobStream(Of(init, meeting));
      NoJobRow(log);
      return;
    }
    var job := last.body.job.value;
    RecoverableExactly(init, job.id);
    EarlierEntries(log, meeting);
    if last.meeting != meeting {
      assert JobStream(Of(log, meeting)) == JobStream(Of(init, meeting));
      OtherMeeting(Recoverable(init), job, meeting);
    } else {
      var before, stream := JobStream(Of(init, meeting)), JobStream(Of(log, meeting));
      assert stream == before + [job] && stream[..|stream| - 1] == before;
      UpsertAllMeaning(before, job.id);
      if job.body.status.Live() {
        LiveUpsert(UpsertAll(before), job);
        MeetingUpsert(Recoverable(init), job);
      } else {
        LiveDead(UpsertAll(before), job);
        MeetingRemove(Recoverable(init), job.id, meeting);
      }
    }
  }

  /** What earlier rows left under the id of the last row's job is live and in the
      last row's meeting. */
  lemma EarlierEntries(log: seq<Event>, meeting: Id)
    requires log != [] && Settled(log) && JobIn(log[|log| - 1].body) != []
    ensures var last, init := log[|log| - 1], log[..|log| - 1];
            var id := last.body.job.value.id;
            && (forall x | x in Recoverable(init) && x.id == id :: x.body.meeting == last.meeting)
            && (forall x | x in UpsertAll(JobStream(Of(init, meeting))) && x.id == id :: x.body.status.Live())
  {
    var n := |log| - 1;
    var init, id := log[..n], log[n].body.job.value.id;
    assert About(log[n], id);
    SettledPrefix(log);
    EntriesComeFromRows(init, id);
    forall x | x in Recoverable(init) && x.id == id ensures x.body.meeting == log[n].meeting {
      var k :| 0 <= k < |init| && About(init[k], id) && init[k].body.job.value == x;
      assert log[k] in log && About(log[k], id);
    }
    StreamFromRows(init, meeting);
    UpsertAllFrom(JobStream(Of(init, meeting)));
    forall x | x in UpsertAll(JobStream(Of(init, meeting))) && x.id == id ensures x.body.status.Live() {
      var k :| 0 <= k < |init| && About(init[k], x.id) && init[k].body.job.value == x;
      assert log[k] in log && About(log[k], id);
    }
  }

  /** The number of running jobs a meeting summary shows is what recovery would
      return for that meeting. */
  lemma RunningCount(log: seq<Event>, meeting: Id)
    requires Settled(log) && Project(log, meeting).Some?
    ensures |LiveJobs(Project(log, meeting).value.jobs)| == |InMeeting(Recoverable(log), meeting)|
  {
    RecoverableIsProjectedLive(log, meeting);
  }

  lemma {:induction false} EntriesComeFromRows(log: seq<Event>, id: Id)
    requires forall e | e in log :: ProperJobRow(e)
    ensures forall x | x in Recoverable(log) && x.id == id ::
              exists k :: 0 <= k < |log| && About(log[k], id) && log[k].body.job.value == x
  {
    RecoverableExactly(log, id);
    forall x | x in Recoverable(log) && x.id == id
      ensures exists k :: 0 <= k < |log| && About(log[k], id) && log[k].body.job.value == x
    {
      assert Has(Recoverable(log), id);
      var k :| LastWord(log, id, k) && SaysLive(log[k].body);
      LookupMember(Recoverable(log), x);
      assert About(log[k], id);
    }
  }

  lemma {:induction false} LookupMember<T>(items: seq<Keyed<T>>, x: Keyed<T>)
    requires Distinct(items) && x in items
    ensures Lookup(items, x.id) == Some(x)
  {
    if items[0] != x {
      assert x in items[1..];
      LookupMember(items[1..], x);
    }
  }

  lemma {:induction false} StreamFromRows(log: seq<Event>, meeting: Id)
    ensures forall x | x in JobStream(Of(log, meeting)) ::
              exists k :: 0 <= k < |log| && About(log[k], x.id) && log[k].body.job.value == x
  {
    if log != [] {
      var n := |log| - 1;
      var init, last := log[..n], log[n];
      StreamFromRows(init, meeting);
      assert init + [last] == log;
      StreamsAppend(init, last, meeting);
      forall x | x in JobStream(Of(log, meeting))
        ensures exists k :: 0 <= k < |log| && About(log[k], x.id) && log[k].body.job.value == x
      {
        if x in JobStream(Of(init, meeting)) {
          var k :| 0 <= k < |init| && About(init[k], x.id) && init[k].body.job.value == x;
          assert log[k] == init[k];
        } else {
          assert About(log[n], x.id);
        }
      }
    }
  }

  lemma {:induction false} UpsertFrom<T>(items: seq<Keyed<T>>, item: Keyed<T>)
    ensures forall x | x in Upsert(items, item) :: x == item || x in items
  {
    if items != [] {
      UpsertFrom(items[1..], item);
    }
  }

  lemma {:induction false} UpsertAllFrom<T>(stream: seq<Keyed<T>>)
    ensures forall x | x in UpsertAll(stream) :: x in stream
  {
    if stream != [] {
      UpsertAllFrom(stream[..|stream| - 1]);
      UpsertFrom(UpsertAll(stream[..|stream| - 1]), stream[|stream| - 1]);
    }
  }

  lemma {:induction false} OtherMeeting(jobs: seq<Job>, job: Job, meeting: Id)
    requires job.body.meeting != meeting
    requires forall x | x in jobs && x.id == job.id :: x.body.meeting != meeting
    ensures InMeeting(Upsert(jobs, job), meeting) == InMeeting(jobs, meeting)
    ensures InMeeting(Remove(jobs, job.id), meeting) == InMeeting(jobs, meeting)
  {
    if jobs != [] {
      OtherMeeting(jobs[1..], job, meeting);
      assert jobs[0] in jobs;
      var up := Upsert(jobs, job);
      if jobs[0].id == job.id {
        assert up[1..] == jobs[1..];
        assert Remove(jobs, job.id) == Remove(jobs[1..], job.id);
      } else {
        assert up[1..] == Upsert(jobs[1..], job);
        assert Remove(jobs, job.id)[1..] == Remove(jobs[1..], job.id);
      }
    }
  }

  lemma {:induction false} MeetingUpsert(jobs: seq<Job>, job: Job)
    requires forall x | x in jobs && x.id == job.id :: x.body.meeting == job.body.meeting
    ensures InMeeting(Upsert(jobs, job), job.body.meeting) == Upsert(InMeeting(jobs, job.body.meeting), job)
  {
    if jobs != [] {
      MeetingUpsert(jobs[1..], job);
      assert jobs[0] in jobs;
      var up, kept := Upsert(jobs, job), InMeeting(jobs, job.body.meeting);
      if jobs[0].id == job.id {
        assert up[1..] == jobs[1..];
        assert kept[1..] == InMeeting(jobs[1..], job.body.meeting);
      } else {
        assert up[1..] == Upsert(jobs[1..], job);
        if jobs[0].body.meeting == job.body.meeting {
          assert kept[1..] == InMeeting(jobs[1..], job.body.meeting);
        } else {
          assert kept == InMeeting(jobs[1..], job.body.meeting);
        }
      }
    }
  }

  lemma {:induction false} MeetingRemove(jobs: seq<Job>, id: Id, meeting: Id)
    ensures InMeeting(Remove(jobs, id), meeting) == Remove(InMeeting(jobs, meeting), id)
  {
    if jobs != [] {
      MeetingRemove(jobs[1..], id, meeting);
      var kept := InMeeting(jobs, meeting);
      if jobs[0].body.meeting == meeting {
        assert kept[1..] == InMeeting(jobs[1..], meeting);
      } else {
        assert kept == InMeeting(jobs[1..], meeting);
      }
      if jobs[0].id == id {
        assert Remove(jobs, id) == Remove(jobs[1..], id);
      } else {
        assert Remove(jobs, id)[1..] == Remove(jobs[1..], id);
      }
    }
  }

  lemma {:induction false} LiveUpsert(jobs: seq<Job>, job: Job)
    requires job.body.status.Live()
    requires forall x | x in jobs && x.id == job.id :: x.body.status.Live()
    ensures LiveJobs(Upsert(jobs, job)) == Upsert(LiveJobs(jobs), job)
  {
    if jobs != [] {
      LiveUpsert(jobs[1..], job);
      assert jobs[0] in jobs;
      var up, kept := Upsert(jobs, job), LiveJobs(jobs);
      if jobs[0].id == job.id {
        assert up[1..] == jobs[1..];
        assert kept[1..] == LiveJobs(jobs[1..]);
      } else {
        assert up[1..] == Upsert(jobs[1..], job);
        if jobs[0].body.status.Live() {
          assert kept[1..] == LiveJobs(jobs[1..]);
        } else {
          assert kept == LiveJobs(jobs[1..]);
        }
      }
    }
  }

  lemma {:induction false} LiveDead(jobs: seq<Job>, job: Job)
    requires !job.body.status.Live() && Distinct(jobs)
    ensures LiveJobs(Upsert(jobs, job)) == Remove(LiveJobs(jobs), job.id)
  {
    if jobs != [] {
      var up, kept := Upsert(jobs, job), LiveJobs(jobs);
      if jobs[0].id == job.id {
        assert up[1..] == jobs[1..];
        NothingToRemove(jobs[1..], job.id);
        if jobs[0].body.status.Live() {
          assert kept[1..] == LiveJobs(jobs[1..]);
        } else {
          assert kept == LiveJobs(jobs[1..]);
        }
      } else {
        LiveDead(jobs[1..], job);
        assert up[1..] == Upsert(jobs[1..], job);
        if jobs[0].body.status.Live() {
          assert kept[1..] == LiveJobs(jobs[1..]);
        } else {
          assert kept == LiveJobs(jobs[1..]);
        }
      }
    }
  }

  lemma {:induction false} NothingToRemove(jobs: seq<Job>, id: Id)
    requires forall i | 0 <= i < |jobs| :: jobs[i].id != id
    ensures Remove(LiveJobs(jobs), id) == LiveJobs(jobs)
  {
    if jobs != [] {
      NothingToRemove(jobs[1..], id);
      var kept := LiveJobs(jobs);
      if jobs[0].body.status.Live() {
        assert kept[1..] == LiveJobs(jobs[1..]);
      } else {
        assert kept == LiveJobs(jobs[1..]);
      }
    }
  }
}
