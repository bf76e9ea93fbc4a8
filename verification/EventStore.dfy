/** The append-only store and its scans, each a loop over mutable lists that is
    proved to compute the meaning given in Replay. */
module Store {
  import opened Domain
  import opened KeyedList
  import opened Replay
  import opened Sequences

  class EventStore {
    var events: seq<Event>

    constructor ()
      ensures events == []
    {
      events := [];
    }

    method Append(meeting: Id, body: Body)
      modifies this
      ensures events == old(events) + [Event(meeting, body)]
    {
      events := events + [Event(meeting, body)];
    }

    method ListEvents(meeting: Id) returns (es: seq<Event>)
      ensures es == Of(events, meeting)
    {
      es := [];
      for i := 0 to |events|
        invariant es == Of(events[..i], meeting)
      {
        assert events[..i + 1][..i] == events[..i];
        if events[i].meeting == meeting {
          es := es + [events[i]];
        }
      }
      assert events[..|events|] == events;
    }

    /** Replay one meeting: fold every event into the tables, stop at the first
        payload that does not decode, derive the status at the end. */
    method Projection(meeting: Id) returns (r: Option<Projection>)
      ensures r == Project(events, meeting)
    {
      var es := ListEvents(meeting);
      var tables := Replay.Projection(None, [], None, NO_SOURCE, [], [], [], [], [], es);
      for i := 0 to |es|
        invariant AllReadable(es[..i])
        invariant tables.events == es
        invariant Replayed(es[..i], tables)
      {
        if !Readable(es[i].body) {
          assert es[i] in es;
          return None;
        }
        ghost var before := tables;
        tables := ReplayEvent(tables, es[i].body);
        ReplayedExtend(es, i, before, tables);
      }
      assert es[..|es|] == es;
      var source := DeriveSourceStatus(tables.source, tables.transcript);
      r := Some(tables.(source := source));
    }

    /** Jobs whose latest word is not terminal, over all meetings. */
    method RecoverableJobs() returns (jobs: seq<Job>)
      ensures jobs == Recoverable(events)
    {
      jobs := [];
      for i := 0 to |events|
        invariant jobs == Recoverable(events[..i])
        invariant forall k | 0 <= k < |jobs| :: jobs[k].body.status.Live()
      {
        assert events[..i + 1][..i] == events[..i];
        ghost var before := jobs;
        match events[i].body {
          case JobEvent(kind, Good(job)) =>
            if kind.Terminal() || job.body.status in {JobStatus.Completed, JobStatus.Failed, Canceled} {
              jobs := RemoveById(jobs, job.id);
              RemoveKeeps(before, job.id);
            } else if job.body.status.Live() {
              jobs := UpsertById(jobs, job);
              UpsertKeeps(before, job);
            }
          case JobEvent(kind, Bad(readable)) =>
            if kind.Terminal() && readable.Some? {
              jobs := RemoveById(jobs, readable.value);
              RemoveKeeps(before, readable.value);
            }
          case _ =>
        }
      }
      assert events[..|events|] == events;
      jobs := KeepLive(jobs);
    }

    /** Stop a capture the ledger shows as live; None when the meeting's log does
        not decode or the stop row cannot be written. */
    method ReconcileStoppedIfOrphaned(meeting: Id, writable: bool) returns (r: Option<bool>)
      modifies this
      ensures r == if SourceOf(Of(old(events), meeting)).None? || (Live(old(events), meeting) && !writable) then None
                   else Some(Live(old(events), meeting))
      ensures events == old(events) + (if r == Some(true) then [Event(meeting, SourceStopped)] else [])
    {
      var projection := Projection(meeting);
      if projection.None? {
        return None;
      }
      var source := projection.value.source;
      if source.started && !source.stopped && source.status != SourceStatus.Failed {
        if !writable {
          return None;
        }
        Append(meeting, SourceStopped);
        return Some(true);
      }
      return Some(false);
    }

    /** The boot sweep over every meeting id, in the order the query lists them; a
        meeting that errors is skipped. */
    method ReconcileOrphanedCaptures(meetings: seq<Id>, unwritable: set<Id>) returns (reconciled: seq<Id>)
      requires NoRepeats(meetings)
      modifies this
      ensures reconciled == Orphans(old(events), meetings, unwritable)
      ensures events == old(events) + StopRows(reconciled)
    {
      reconciled := [];
      for i := 0 to |meetings|
        invariant reconciled == Orphans(old(events), meetings[..i], unwritable)
        invariant events == old(events) + StopRows(reconciled)
      {
        SweepUntouched(old(events), meetings, i, unwritable);
        SweepExtend(old(events), meetings, i, unwritable);
        var outcome := ReconcileStoppedIfOrphaned(meetings[i], meetings[i] !in unwritable);
        if outcome == Some(true) {
          StopRowsExtend(reconciled, meetings[i]);
          Associate(old(events), StopRows(reconciled), [Event(meetings[i], SourceStopped)]);
          reconciled := reconciled + [meetings[i]];
        }
      }
      assert meetings[..|meetings|] == meetings;
    }

    method FindLatestProposal(id: Id) returns (r: Found)
      ensures r == FindLatest(events, id)
    {
      var i := |events|;
      assert events[..|events|] == events;
      while i > 0
        invariant 0 <= i <= |events|
        invariant FindLatest(events, id) == FindLatest(events[..i], id)
      {
        i := i - 1;
        assert events[..i + 1][..i] == events[..i];
        match events[i].body {
          case ProposalEvent(_, Bad(_)) => return Unreadable;
          case ProposalEvent(_, Good(proposal)) =>
            if proposal.id == id { return Newest(proposal); }
          case _ =>
        }
      }
      r := Missing;
    }
  }

  /** The tables hold what replaying these events means, status not yet derived. */
  ghost predicate Replayed(es: seq<Event>, p: Projection) {
    && p.title == TitleAfter(es) && p.transcript == Finals(es)
    && p.partial == PartialAfter(es) && p.source == SourceAfter(es)
    && p.requests == Requests(es) && p.noProposals == NoProposals(es)
    && p.proposals == UpsertAll(ProposalStream(es))
    && p.jobs == UpsertAll(JobStream(es)) && p.artifacts == Artifacts(es)
  }

  ghost predicate ReplayedOne(p: Projection, body: Body, q: Projection) {
    && q.title == TitleStep(p.title, body) && q.transcript == p.transcript + FinalIn(body)
    && q.partial == PartialStep(p.partial, p.source.mic.expected, body)
    && q.source == SourceStep(p.source, body)
    && q.requests == p.requests + RequestIn(body) && q.noProposals == p.noProposals + NoProposalIn(body)
    && q.proposals == (if ProposalIn(body) == [] then p.proposals else Upsert(p.proposals, ProposalIn(body)[0]))
    && q.jobs == (if JobIn(body) == [] then p.jobs else Upsert(p.jobs, JobIn(body)[0]))
    && q.artifacts == p.artifacts + ArtifactIn(body)
    && q.events == p.events
  }

  method ReplayEvent(p: Projection, body: Body) returns (q: Projection)
    requires Readable(body)
    ensures ReplayedOne(p, body, q)
  {
    var partial := ReplayPartial(p.partial, p.source.mic.expected, body);
    var source := ReplaySource(p.source, body);
    q := p.(partial := partial, source := source);
    match body {
      case MeetingDescribed(Good(info)) =>
        if info.title.Some? { q := q.(title := info.title); }
      case MeetingRenamed(Good(title)) => q := q.(title := Some(title));
      case SegmentFinal(Good(segment)) => q := q.(transcript := q.transcript + [segment]);
      case RequestCreated(Good(request)) => q := q.(requests := q.requests + [request]);
      case ProposalNotCreated(Good(noProposal)) => q := q.(noProposals := q.noProposals + [noProposal]);
      case ProposalEvent(_, Good(proposal)) =>
        var proposals := UpsertById(q.proposals, proposal);
        q := q.(proposals := proposals);
      case JobEvent(_, Good(job)) =>
        var jobs := UpsertById(q.jobs, job);
        q := q.(jobs := jobs);
      case ArtifactCreated(Good(artifact)) => q := q.(artifacts := q.artifacts + [artifact]);
      case _ =>
    }
  }

  lemma ReplayedExtend(es: seq<Event>, i: nat, p: Projection, q: Projection)
    requires i < |es|
    requires Replayed(es[..i], p) && ReplayedOne(p, es[i].body, q)
    ensures Replayed(es[..i + 1], q)
  {
    assert es[..i + 1][..i] == es[..i] && es[..i + 1][i] == es[i];
    var body := es[i].body;
    if ProposalIn(body) == [] {
      assert ProposalStream(es[..i + 1]) == ProposalStream(es[..i]);
    } else {
      UpsertAllAppend(ProposalStream(es[..i]), ProposalIn(body)[0]);
    }
    if JobIn(body) == [] {
      assert JobStream(es[..i + 1]) == JobStream(es[..i]);
    } else {
      UpsertAllAppend(JobStream(es[..i]), JobIn(body)[0]);
    }
  }

  /** The effect of one readable event on the source fields, assigned one by one. */
  method ReplaySource(before: SourceState, body: Body) returns (source: SourceState)
    requires Readable(body)
    ensures source == SourceStep(before, body)
  {
    source := before;
    match body {
      case MeetingDescribed(Good(info)) =>
        if info.mode.Some? { source := source.(mode := info.mode); }
      case SourceStarted(Good(info)) =>
        source := source.(source := Some(info.source), mode := Some(info.mode));
        source := source.(mic := source.mic.(expected := info.mode.HasMic()));
        source := source.(system := source.system.(expected := info.mode.HasSystem()));
        source := source.(started := true, stopped := false, failure := None, status := Capturing);
      case LevelSampled(Good(info)) =>
        var lane := if info.lane == Microphone then source.mic else source.system;
        lane := lane.(expected := true, lastRms := Some(info.rms));
        lane := lane.(capturedMs := Max(lane.capturedMs, info.capturedMs), levels := lane.levels + 1);
        if info.rms >= ACTIVE_RMS { lane := lane.(active := true); }
        source := if info.lane == Microphone then source.(mic := lane) else source.(system := lane);
      case BuffersDropped(Good(info)) =>
        if info.lane == Microphone {
          source := source.(mic := source.mic.(dropped := Max(source.mic.dropped, info.count)));
        } else {
          source := source.(system := source.system.(dropped := Max(source.system.dropped, info.count)));
        }
      case SegmentPartial(Good(_)) =>
        if source.status == Capturing { source := source.(status := Transcribing); }
      case SegmentFinal(Good(_)) =>
        if source.status == Capturing { source := source.(status := Transcribing); }
      case SourceFailed(Good(info)) =>
        source := source.(source := Some(info.source));
        if info.lane == Some(Microphone) { source := source.(mic := source.mic.(failed := true)); }
        if info.lane == Some(SystemAudio) { source := source.(system := source.system.(failed := true)); }
        var systemLaneOnly := info.lane == Some(SystemAudio) && source.mic.expected;
        source := source.(failure := Some(info));
        if !systemLaneOnly { source := source.(status := SourceStatus.Failed); }
      case SourceStopped =>
        source := source.(stopped := true);
        if source.status != SourceStatus.Failed { source := source.(status := Stopped); }
      case _ =>
    }
  }

  /** The effect of one readable event on the in-flight utterance. */
  method ReplayPartial(before: Option<Segment>, micExpected: bool, body: Body) returns (partial: Option<Segment>)
    requires Readable(body)
    ensures partial == PartialStep(before, micExpected, body)
  {
    partial := before;
    match body {
      case SegmentPartial(Good(segment)) => partial := Some(segment);
      case SegmentFinal(Good(segment)) =>
        if partial.Some? && partial.value.speaker == segment.speaker { partial := None; }
      case SourceFailed(Good(info)) =>
        if !(info.lane == Some(SystemAudio) && micExpected) { partial := None; }
      case SourceStopped => partial := None;
      case _ =>
    }
  }

  /** `derive_source_status`: the status is written through a mutable reference. */
  method DeriveSourceStatus(source: SourceState, transcript: seq<Segment>) returns (r: SourceState)
    ensures r == Derive(source, transcript)
  {
    r := source;
    if !r.started && r.failure.None? {
      var demo := false;
      for i := 0 to |transcript|
        invariant demo <==> exists k | 0 <= k < i :: transcript[k].source == SourceKind.Demo
      {
        if transcript[i].source == SourceKind.Demo { demo := true; }
      }
      if demo {
        r := r.(status := SourceStatus.Demo);
      } else if r.mode.Some? {
        r := r.(status := WaitingPermission);
      }
      return;
    }
    if r.stopped || r.failure.Some? {
      return;
    }
    var micSilent := r.mic.expected && !r.mic.active && r.mic.levels > 0;
    var systemSilent := r.system.expected && !r.system.active && r.system.levels > 0;
    if r.status == Capturing || r.status == Transcribing {
      if systemSilent && !micSilent {
        r := r.(status := NoSystemAudio);
      } else if micSilent && !systemSilent {
        r := r.(status := NoMicAudio);
      }
    }
  }

  /** The closing filter of the recovery scan; on what the scan leaves it keeps all. */
  method KeepLive(jobs: seq<Job>) returns (r: seq<Job>)
    ensures (forall k | 0 <= k < |jobs| :: jobs[k].body.status.Live()) ==> r == jobs
    ensures forall k | 0 <= k < |r| :: r[k].body.status.Live() && r[k] in jobs
  {
    r := [];
    for i := 0 to |jobs|
      invariant (forall k | 0 <= k < i :: jobs[k].body.status.Live()) ==> r == jobs[..i]
      invariant forall k | 0 <= k < |r| :: r[k].body.status.Live() && r[k] in jobs
    {
      if jobs[i].body.status.Live() {
        r := r + [jobs[i]];
      }
    }
  }

  lemma UpsertAllAppend<T>(stream: seq<Keyed<T>>, item: Keyed<T>)
    ensures UpsertAll(stream + [item]) == Upsert(UpsertAll(stream), item)
  {
    assert (stream + [item])[..|stream|] == stream;
  }

  lemma {:induction false} RemoveKeeps(jobs: seq<Job>, id: Id)
    requires forall k | 0 <= k < |jobs| :: jobs[k].body.status.Live()
    ensures forall k | 0 <= k < |Remove(jobs, id)| :: Remove(jobs, id)[k].body.status.Live()
  {
    if jobs != [] {
      RemoveKeeps(jobs[1..], id);
    }
  }

  lemma {:induction false} UpsertKeeps(jobs: seq<Job>, job: Job)
    requires job.body.status.Live()
    requires forall k | 0 <= k < |jobs| :: jobs[k].body.status.Live()
    ensures forall k | 0 <= k < |Upsert(jobs, job)| :: Upsert(jobs, job)[k].body.status.Live()
  {
    if jobs != [] {
      UpsertKeeps(jobs[1..], job);
    }
  }

  lemma SweepUntouched(log: seq<Event>, meetings: seq<Id>, i: nat, unwritable: set<Id>)
    requires NoRepeats(meetings) && i < |meetings|
    ensures var rows := StopRows(Orphans(log, meetings[..i], unwritable));
            Of(log + rows, meetings[i]) == Of(log, meetings[i])
  {
    OrphansFacts(log, meetings[..i], unwritable);
    assert meetings[i] !in meetings[..i];
    OfStopRows(log, Orphans(log, meetings[..i], unwritable), meetings[i]);
  }

  lemma SweepExtend(log: seq<Event>, meetings: seq<Id>, i: nat, unwritable: set<Id>)
    requires i < |meetings|
    ensures Orphans(log, meetings[..i + 1], unwritable) == Orphans(log, meetings[..i], unwritable)
            + (if Live(log, meetings[i]) && meetings[i] !in unwritable then [meetings[i]] else [])
  {
    assert meetings[..i + 1][..i] == meetings[..i];
  }

  lemma StopRowsExtend(ids: seq<Id>, m: Id)
    ensures StopRows(ids + [m]) == StopRows(ids) + [Event(m, SourceStopped)]
  {
    assert (ids + [m])[..|ids|] == ids;
  }
}
