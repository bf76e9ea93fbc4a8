/** What replaying a ledger means: one specification function per field of the
    projection, and the fold that the job-recovery scan performs. */
module Replay {
  import opened Domain
  import opened KeyedList
  import opened Sequences

  datatype SourceStatus =
    | Idle | Demo | WaitingPermission | Capturing | Transcribing
    | NoMicAudio | NoSystemAudio | Failed | Stopped

  datatype Lane = Lane(
    expected: bool,
    active: bool,
    lastRms: Option<real>,
    capturedMs: nat,
    levels: nat,
    dropped: nat,
    failed: bool)

  datatype SourceState = SourceState(
    status: SourceStatus,
    source: Option<SourceKind>,
    mode: Option<CaptureMode>,
    mic: Lane,
    system: Lane,
    failure: Option<FailedInfo>,
    started: bool,
    stopped: bool)

  function LaneOf(s: SourceState, lane: AudioLane): Lane {
    if lane == Microphone then s.mic else s.system
  }

  datatype Projection = Projection(
    title: Option<string>,
    transcript: seq<Segment>,
    partial: Option<Segment>,
    source: SourceState,
    requests: seq<ProposalRequest>,
    noProposals: seq<NoProposal>,
    proposals: seq<Proposal>,
    jobs: seq<Job>,
    artifacts: seq<Artifact>,
    events: seq<Event>)

  const ACTIVE_RMS: real := 0.005

  const SILENT_LANE: Lane := Lane(false, false, None, 0, 0, 0, false)

  const NO_SOURCE: SourceState :=
    SourceState(Idle, None, None, SILENT_LANE, SILENT_LANE, None, false, false)

  function Max(a: nat, b: nat): nat { if a < b then b else a }

  /** Does the projection decode this event's payload without error? */
  predicate Readable(b: Body) {
    match b
    case MeetingDescribed(d) => d.Good?
    case MeetingRenamed(d) => d.Good?
    case SourceStarted(d) => d.Good?
    case SourceFailed(d) => d.Good?
    case LevelSampled(d) => d.Good?
    case BuffersDropped(d) => d.Good?
    case SegmentPartial(d) => d.Good?
    case SegmentFinal(d) => d.Good?
    case RequestCreated(d) => d.Good?
    case ProposalNotCreated(d) => d.Good?
    case ProposalEvent(_, d) => d.Good?
    case JobEvent(_, d) => d.Good?
    case ArtifactCreated(d) => d.Good?
    case SourceStopped => true
    case Other => true
    case Garbled => false
  }

  predicate AllReadable(es: seq<Event>) {
    forall e | e in es :: Readable(e.body)
  }

  /** The events of one meeting, in ledger order. */
  function Of(log: seq<Event>, meeting: Id): seq<Event> {
    if log == [] then []
    else
      var last := log[|log| - 1];
      Of(log[..|log| - 1], meeting) + (if last.meeting == meeting then [last] else [])
  }

  // ---- Source state ----------------------------------------------------------

  /** A failure is the whole source's unless it is the system lane's and the
      microphone lane is expected to carry on. */
  predicate WholeFailure(info: FailedInfo, micExpected: bool) {
    !(info.lane == Some(SystemAudio) && micExpected)
  }

  function SampleLane(lane: Lane, info: LevelInfo): Lane {
    lane.(expected := true, lastRms := Some(info.rms), capturedMs := Max(lane.capturedMs, info.capturedMs),
          levels := lane.levels + 1, active := lane.active || info.rms >= ACTIVE_RMS)
  }

  function SourceStep(s: SourceState, b: Body): SourceState {
    match b
    case MeetingDescribed(Good(info)) => if info.mode.Some? then s.(mode := info.mode) else s
    case SourceStarted(Good(info)) =>
      s.(source := Some(info.source), mode := Some(info.mode),
         mic := s.mic.(expected := info.mode.HasMic()),
         system := s.system.(expected := info.mode.HasSystem()),
         started := true, stopped := false, failure := None, status := Capturing)
    case LevelSampled(Good(info)) =>
      if info.lane == Microphone then s.(mic := SampleLane(s.mic, info))
      else s.(system := SampleLane(s.system, info))
    case BuffersDropped(Good(info)) =>
      if info.lane == Microphone then s.(mic := s.mic.(dropped := Max(s.mic.dropped, info.count)))
      else s.(system := s.system.(dropped := Max(s.system.dropped, info.count)))
    case SegmentPartial(Good(_)) => if s.status == Capturing then s.(status := Transcribing) else s
    case SegmentFinal(Good(_)) => if s.status == Capturing then s.(status := Transcribing) else s
    case SourceFailed(Good(info)) =>
      s.(source := Some(info.source),
         mic := s.mic.(failed := s.mic.failed || info.lane == Some(Microphone)),
         system := s.system.(failed := s.system.failed || info.lane == Some(SystemAudio)),
         failure := Some(info),
         status := if WholeFailure(info, s.mic.expected) then SourceStatus.Failed else s.status)
    case SourceStopped =>
      s.(stopped := true, status := if s.status == SourceStatus.Failed then SourceStatus.Failed else Stopped)
    case _ => s
  }

  function SourceAfter(es: seq<Event>): SourceState {
    if es == [] then NO_SOURCE
    else SourceStep(SourceAfter(es[..|es| - 1]), es[|es| - 1].body)
  }

  predicate LaneSilent(lane: Lane) {
    lane.expected && !lane.active && lane.levels > 0
  }

  predicate HasDemo(transcript: seq<Segment>) {
    exists i | 0 <= i < |transcript| :: transcript[i].source == SourceKind.Demo
  }

  /** The one adjustment made to the replayed source once the log is exhausted. */
  function Derive(s: SourceState, transcript: seq<Segment>): SourceState {
    if !s.started && s.failure.None? then
      if HasDemo(transcript) then s.(status := SourceStatus.Demo)
      else if s.mode.Some? then s.(status := WaitingPermission)
      else s
    else if s.stopped || s.failure.Some? then s
    else if s.status != Capturing && s.status != Transcribing then s
    else if LaneSilent(s.system) && !LaneSilent(s.mic) then s.(status := NoSystemAudio)
    else if LaneSilent(s.mic) && !LaneSilent(s.system) then s.(status := NoMicAudio)
    else s
  }

  // ---- The other projected fields --------------------------------------------

  function TitleStep(before: Option<string>, b: Body): Option<string> {
    match b
    case MeetingDescribed(Good(info)) => if info.title.Some? then info.title else before
    case MeetingRenamed(Good(title)) => Some(title)
    case _ => before
  }

  function TitleAfter(es: seq<Event>): Option<string> {
    if es == [] then None else TitleStep(TitleAfter(es[..|es| - 1]), es[|es| - 1].body)
  }

  /** The in-flight utterance: a final by the same speaker, a whole-source failure
      or a stop clears it. */
  function PartialStep(before: Option<Segment>, micExpected: bool, b: Body): Option<Segment> {
    match b
    case SegmentPartial(Good(segment)) => Some(segment)
    case SegmentFinal(Good(segment)) =>
      if before.Some? && before.value.speaker == segment.speaker then None else before
    case SourceFailed(Good(info)) => if WholeFailure(info, micExpected) then None else before
    case SourceStopped => None
    case _ => before
  }

  function PartialAfter(es: seq<Event>): Option<Segment> {
    if es == [] then None
    else
      var init := es[..|es| - 1];
      PartialStep(PartialAfter(init), SourceAfter(init).mic.expected, es[|es| - 1].body)
  }

  function FinalIn(b: Body): seq<Segment> {
    match b case SegmentFinal(Good(segment)) => [segment] case _ => []
  }

  function RequestIn(b: Body): seq<ProposalRequest> {
    match b case RequestCreated(Good(request)) => [request] case _ => []
  }

  function NoProposalIn(b: Body): seq<NoProposal> {
    match b case ProposalNotCreated(Good(noProposal)) => [noProposal] case _ => []
  }

  function ProposalIn(b: Body): seq<Proposal> {
    match b case ProposalEvent(_, Good(proposal)) => [proposal] case _ => []
  }

  function JobIn(b: Body): seq<Job> {
    match b case JobEvent(_, Good(job)) => [job] case _ => []
  }

  function ArtifactIn(b: Body): seq<Artifact> {
    match b case ArtifactCreated(Good(artifact)) => [artifact] case _ => []
  }

  function Finals(es: seq<Event>): seq<Segment> {
    if es == [] then [] else Finals(es[..|es| - 1]) + FinalIn(es[|es| - 1].body)
  }

  function Requests(es: seq<Event>): seq<ProposalRequest> {
    if es == [] then [] else Requests(es[..|es| - 1]) + RequestIn(es[|es| - 1].body)
  }

  function NoProposals(es: seq<Event>): seq<NoProposal> {
    if es == [] then [] else NoProposals(es[..|es| - 1]) + NoProposalIn(es[|es| - 1].body)
  }

  function ProposalStream(es: seq<Event>): seq<Proposal> {
    if es == [] then [] else ProposalStream(es[..|es| - 1]) + ProposalIn(es[|es| - 1].body)
  }

  function JobStream(es: seq<Event>): seq<Job> {
    if es == [] then [] else JobStream(es[..|es| - 1]) + JobIn(es[|es| - 1].body)
  }

  function Artifacts(es: seq<Event>): seq<Artifact> {
    if es == [] then [] else Artifacts(es[..|es| - 1]) + ArtifactIn(es[|es| - 1].body)
  }

  /** The projection of one meeting; None when some payload does not decode. */
  function Project(log: seq<Event>, meeting: Id): Option<Projection> {
    var es := Of(log, meeting);
    if AllReadable(es) then
      Some(Projection(TitleAfter(es), Finals(es), PartialAfter(es), Derive(SourceAfter(es), Finals(es)),
                      Requests(es), NoProposals(es), UpsertAll(ProposalStream(es)),
                      UpsertAll(JobStream(es)), Artifacts(es), es))
    else None
  }

  // ---- Orphaned captures -------------------------------------------------------

  /** The source field of a meeting's projection; None when it does not decode. */
  function SourceOf(es: seq<Event>): Option<SourceState> {
    if AllReadable(es) then Some(Derive(SourceAfter(es), Finals(es))) else None
  }

  predicate IsCapturing(s: SourceState) {
    s.started && !s.stopped && s.status != SourceStatus.Failed
  }

  predicate LiveEvents(es: seq<Event>) {
    SourceOf(es).Some? && IsCapturing(SourceOf(es).value)
  }

  /** The ledger shows the meeting as capturing: started, not stopped, not failed. */
  predicate Live(log: seq<Event>, meeting: Id) {
    LiveEvents(Of(log, meeting))
  }

  /** The live meetings whose stop row can be written, in the order visited. */
  function Orphans(log: seq<Event>, meetings: seq<Id>, unwritable: set<Id>): seq<Id> {
    if meetings == [] then []
    else
      var m := meetings[|meetings| - 1];
      Orphans(log, meetings[..|meetings| - 1], unwritable)
      + (if Live(log, m) && m !in unwritable then [m] else [])
  }

  function StopRows(ids: seq<Id>): seq<Event> {
    if ids == [] then []
    else StopRows(ids[..|ids| - 1]) + [Event(ids[|ids| - 1], SourceStopped)]
  }

  ghost predicate NoRepeats(ids: seq<Id>) {
    forall i, j | 0 <= i < j < |ids| :: ids[i] != ids[j]
  }

  lemma {:induction false} OfStopRows(log: seq<Event>, ids: seq<Id>, meeting: Id)
    requires NoRepeats(ids)
    ensures Of(log + StopRows(ids), meeting)
            == Of(log, meeting) + (if meeting in ids then [Event(meeting, SourceStopped)] else [])
  {
    if ids == [] {
      assert log + StopRows(ids) == log;
    } else {
      var init, last := ids[..|ids| - 1], ids[|ids| - 1];
      OfStopRows(log, init, meeting);
      assert log + StopRows(ids) == (log + StopRows(init)) + [Event(last, SourceStopped)];
      OfAppend(log + StopRows(init), Event(last, SourceStopped), meeting);
      assert meeting in ids <==> meeting in init || meeting == last;
    }
  }

  lemma {:induction false} OrphansFacts(log: seq<Event>, meetings: seq<Id>, unwritable: set<Id>)
    requires NoRepeats(meetings)
    ensures NoRepeats(Orphans(log, meetings, unwritable))
    ensures forall m :: m in Orphans(log, meetings, unwritable) <==>
                        m in meetings && Live(log, m) && m !in unwritable
  {
    if meetings != [] {
      var init, last := meetings[..|meetings| - 1], meetings[|meetings| - 1];
      OrphansFacts(log, init, unwritable);
      assert forall m :: m in meetings <==> m in init || m == last;
      assert last !in init;
    }
  }

  // ---- Job recovery ----------------------------------------------------------

  /** The effect of one ledger row on the list of recoverable jobs. */
  function RecoveryStep(jobs: seq<Job>, b: Body): seq<Job> {
    match b
    case JobEvent(kind, Good(job)) =>
      if kind.Terminal() || !job.body.status.Live() then Remove(jobs, job.id) else Upsert(jobs, job)
    case JobEvent(kind, Bad(Some(id))) => if kind.Terminal() then Remove(jobs, id) else jobs
    case _ => jobs
  }

  function Recoverable(log: seq<Event>): seq<Job> {
    if log == [] then []
    else RecoveryStep(Recoverable(log[..|log| - 1]), log[|log| - 1].body)
  }

  // ---- Backward proposal lookup ----------------------------------------------

  datatype Found = Unreadable | Missing | Newest(proposal: Proposal)

  /** Newest row first; an undecodable proposal row stops the scan with an error. */
  function FindLatest(log: seq<Event>, id: Id): Found {
    if log == [] then Missing
    else
      var older := log[..|log| - 1];
      match log[|log| - 1].body
      case ProposalEvent(_, Bad(_)) => Unreadable
      case ProposalEvent(_, Good(proposal)) =>
        if proposal.id == id then Newest(proposal) else FindLatest(older, id)
      case _ => FindLatest(older, id)
  }

  // ---- Appending -------------------------------------------------------------

  lemma OfAppend(log: seq<Event>, e: Event, meeting: Id)
    ensures Of(log + [e], meeting) == Of(log, meeting) + (if e.meeting == meeting then [e] else [])
  {
    assert (log + [e])[..|log|] == log;
  }

  lemma StreamsAppend(log: seq<Event>, e: Event, meeting: Id)
    ensures ProposalStream(Of(log + [e], meeting)) ==
            ProposalStream(Of(log, meeting)) + (if e.meeting == meeting then ProposalIn(e.body) else [])
    ensures JobStream(Of(log + [e], meeting)) ==
            JobStream(Of(log, meeting)) + (if e.meeting == meeting then JobIn(e.body) else [])
    ensures Finals(Of(log + [e], meeting)) ==
            Finals(Of(log, meeting)) + (if e.meeting == meeting then FinalIn(e.body) else [])
  {
    OfAppend(log, e, meeting);
    var before, after := Of(log, meeting), Of(log + [e], meeting);
    if e.meeting == meeting {
      assert after[..|after| - 1] == before && after[|after| - 1] == e;
    } else {
      assert after == before;
    }
  }

  lemma FinalsKept(log: seq<Event>, e: Event, meeting: Id)
    requires FinalIn(e.body) == []
    ensures Finals(Of(log + [e], meeting)) == Finals(Of(log, meeting))
  {
    StreamsAppend(log, e, meeting);
  }

  lemma ReadableAppend(log: seq<Event>, e: Event, meeting: Id)
    ensures AllReadable(Of(log + [e], meeting)) <==>
            AllReadable(Of(log, meeting)) && (e.meeting == meeting ==> Readable(e.body))
  {
    OfAppend(log, e, meeting);
    var es := Of(log, meeting);
    if e.meeting == meeting {
      assert forall x :: x in es + [e] <==> x in es || x == e;
    } else {
      assert es + [] == es;
    }
  }

  /** A readable row that is no final leaves the transcript and readability alone. */
  lemma QuietRow(log: seq<Event>, e: Event, meeting: Id)
    requires Readable(e.body) && FinalIn(e.body) == []
    ensures Finals(Of(log + [e], meeting)) == Finals(Of(log, meeting))
    ensures AllReadable(Of(log + [e], meeting)) <==> AllReadable(Of(log, meeting))
  {
    FinalsKept(log, e, meeting);
    ReadableAppend(log, e, meeting);
  }

  lemma ProjectsFinals(log: seq<Event>, meeting: Id)
    ensures Project(log, meeting).Some? <==> AllReadable(Of(log, meeting))
    ensures Project(log, meeting).Some? ==> Project(log, meeting).value.transcript == Finals(Of(log, meeting))
  {
  }

  /** The transcript only grows: a longer ledger extends it. */
  lemma {:induction false} FinalsGrow(log: seq<Event>, more: seq<Event>, meeting: Id)
    ensures Of(log, meeting) <= Of(log + more, meeting)
    ensures Finals(Of(log, meeting)) <= Finals(Of(log + more, meeting))
  {
    if more == [] {
      assert log + more == log;
    } else {
      var init, last := more[..|more| - 1], more[|more| - 1];
      FinalsGrow(log, init, meeting);
      Associate(log, init, [last]);
      assert more == init + [last];
      OfAppend(log + init, last, meeting);
      StreamsAppend(log + init, last, meeting);
    }
  }
}
