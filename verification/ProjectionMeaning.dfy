/** What the projection shows of a meeting, field by field, as facts about the meeting's
    rows rather than as a fold over them. */
module ProjectionMeaning {
  import opened Domain
  import opened Replay
  import opened SourceMeaning
  import opened DropReports

  // ---- When there is a projection -----------------------------------------------------

  /** The payload is there and does not decode. */
  predicate Undecoded(b: Body) {
    || (b.MeetingDescribed? && b.meeting.Bad?) || (b.MeetingRenamed? && b.title.Bad?)
    || (b.SourceStarted? && b.started.Bad?) || (b.SourceFailed? && b.failed.Bad?)
    || (b.LevelSampled? && b.level.Bad?) || (b.BuffersDropped? && b.dropped.Bad?)
    || (b.SegmentPartial? && b.partial.Bad?) || (b.SegmentFinal? && b.final.Bad?)
    || (b.RequestCreated? && b.request.Bad?) || (b.ProposalNotCreated? && b.noProposal.Bad?)
    || (b.ProposalEvent? && b.proposal.Bad?) || (b.JobEvent? && b.job.Bad?)
    || (b.ArtifactCreated? && b.artifact.Bad?) || b.Garbled?
  }

  lemma {:induction false} OfMeeting(log: seq<Event>, meeting: Id, e: Event)
    ensures e in Of(log, meeting) <==> e in log && e.meeting == meeting
  {
    if log != [] {
      var init, last := log[..|log| - 1], log[|log| - 1];
      OfMeeting(init, meeting, e);
      assert log == init + [last];
    }
  }

  /** There is none exactly when some row of the meeting does not decode. */
  lemma {:induction false} ProjectsExactly(log: seq<Event>, meeting: Id)
    ensures Project(log, meeting).None? <==> exists e :: e in log && e.meeting == meeting && Undecoded(e.body)
  {
    var es := Of(log, meeting);
    forall e ensures e in es <==> e in log && e.meeting == meeting {
      OfMeeting(log, meeting, e);
    }
    if !AllReadable(es) {
      var e :| e in es && !Readable(e.body);
      assert Undecoded(e.body);
    }
    if e :| e in log && e.meeting == meeting && Undecoded(e.body) {
      assert e in es && !Readable(e.body);
    }
  }

  // ---- The collections -------------------------------------------------------------------

  datatype Kind =
    | FinalRow | RequestRow | NoProposalRow | CardRow | JobRow | ArtifactRow | SampleRow(lane: AudioLane)

  predicate IsOf(b: Body, kind: Kind) {
    match kind
    case FinalRow => b.SegmentFinal? && b.final.Good?
    case RequestRow => b.RequestCreated? && b.request.Good?
    case NoProposalRow => b.ProposalNotCreated? && b.noProposal.Good?
    case CardRow => b.ProposalEvent? && b.proposal.Good?
    case JobRow => b.JobEvent? && b.job.Good?
    case ArtifactRow => b.ArtifactCreated? && b.artifact.Good?
    case SampleRow(lane) => b.LevelSampled? && b.level.Good? && b.level.value.lane == lane
  }

  /** Where the rows of a kind stand. */
  function RowsAt(es: seq<Event>, kind: Kind): (at: seq<nat>)
    ensures forall i | 0 <= i < |at| :: at[i] < |es| && IsOf(es[at[i]].body, kind)
  {
    if es == [] then []
    else RowsAt(es[..|es| - 1], kind) + (if IsOf(es[|es| - 1].body, kind) then [|es| - 1] else [])
  }

  /** They are in order, and all there are. */
  lemma {:induction false} RowsAtAre(es: seq<Event>, kind: Kind)
    ensures var at := RowsAt(es, kind);
            && (forall i, j | 0 <= i < j < |at| :: at[i] < at[j])
            && (forall k: nat | k < |es| :: k in at <==> IsOf(es[k].body, kind))
  {
    if es != [] {
      var n := |es| - 1;
      RowsAtAre(es[..n], kind);
      var before, at := RowsAt(es[..n], kind), RowsAt(es, kind);
      forall k: nat | k < |es| ensures k in at <==> IsOf(es[k].body, kind) {
        assert k in at <==> k in before || (k == n && IsOf(es[n].body, kind));
        assert k < n ==> es[..n][k] == es[k];
      }
    }
  }

  lemma RowsAtLast(es: seq<Event>, kind: Kind)
    requires es != []
    ensures var n, before := |es| - 1, RowsAt(es[..|es| - 1], kind);
            && RowsAt(es, kind) == (if IsOf(es[n].body, kind) then before + [n] else before)
            && forall i | 0 <= i < |before| :: es[before[i]] == es[..n][before[i]]
  {
  }

  // The transcript, the requests, the decisions against a card and the artifacts are the
  // payloads of their rows, every one of them, in ledger order; so are the streams that the
  // cards and jobs are kept from.

  lemma {:induction false} TranscriptIs(es: seq<Event>)
    ensures var at := RowsAt(es, FinalRow);
            |Finals(es)| == |at| && forall i | 0 <= i < |at| :: es[at[i]].body.final.value == Finals(es)[i]
  {
    if es != [] {
      TranscriptIs(es[..|es| - 1]);
      RowsAtLast(es, FinalRow);
      assert Finals(es) == Finals(es[..|es| - 1]) + FinalIn(es[|es| - 1].body);
    }
  }

  lemma {:induction false} RequestsAre(es: seq<Event>)
    ensures var at := RowsAt(es, RequestRow);
            |Requests(es)| == |at| && forall i | 0 <= i < |at| :: es[at[i]].body.request.value == Requests(es)[i]
  {
    if es != [] {
      RequestsAre(es[..|es| - 1]);
      RowsAtLast(es, RequestRow);
      assert Requests(es) == Requests(es[..|es| - 1]) + RequestIn(es[|es| - 1].body);
    }
  }

  lemma {:induction false} NoProposalsAre(es: seq<Event>)
    ensures var at := RowsAt(es, NoProposalRow);
            && |NoProposals(es)| == |at|
            && forall i | 0 <= i < |at| :: es[at[i]].body.noProposal.value == NoProposals(es)[i]
  {
    if es != [] {
      NoProposalsAre(es[..|es| - 1]);
      RowsAtLast(es, NoProposalRow);
      assert NoProposals(es) == NoProposals(es[..|es| - 1]) + NoProposalIn(es[|es| - 1].body);
    }
  }

  lemma {:induction false} ArtifactsAre(es: seq<Event>)
    ensures var at := RowsAt(es, ArtifactRow);
            |Artifacts(es)| == |at| && forall i | 0 <= i < |at| :: es[at[i]].body.artifact.value == Artifacts(es)[i]
  {
    if es != [] {
      ArtifactsAre(es[..|es| - 1]);
      RowsAtLast(es, ArtifactRow);
      assert Artifacts(es) == Artifacts(es[..|es| - 1]) + ArtifactIn(es[|es| - 1].body);
    }
  }

  lemma {:induction false} CardStreamIs(es: seq<Event>)
    ensures var at := RowsAt(es, CardRow);
            && |ProposalStream(es)| == |at|
            && forall i | 0 <= i < |at| :: es[at[i]].body.proposal.value == ProposalStream(es)[i]
  {
    if es != [] {
      CardStreamIs(es[..|es| - 1]);
      RowsAtLast(es, CardRow);
      assert ProposalStream(es) == ProposalStream(es[..|es| - 1]) + ProposalIn(es[|es| - 1].body);
    }
  }

  lemma {:induction false} JobStreamIs(es: seq<Event>)
    ensures var at := RowsAt(es, JobRow);
            |JobStream(es)| == |at| && forall i | 0 <= i < |at| :: es[at[i]].body.job.value == JobStream(es)[i]
  {
    if es != [] {
      JobStreamIs(es[..|es| - 1]);
      RowsAtLast(es, JobRow);
      assert JobStream(es) == JobStream(es[..|es| - 1]) + JobIn(es[|es| - 1].body);
    }
  }

  // ---- Fields the last row decides ------------------------------------------------------

  /** The title a row gives the meeting. */
  function Titles(b: Body): Option<string> {
    match b
    case MeetingDescribed(Good(info)) => info.title
    case MeetingRenamed(Good(title)) => Some(title)
    case _ => None
  }

  /** The title is that of the last row that gives one. */
  lemma {:induction false} TitleIsLast(es: seq<Event>)
    ensures (forall i | 0 <= i < |es| :: Titles(es[i].body).None?) ==> TitleAfter(es).None?
    ensures forall k | 0 <= k < |es| && Titles(es[k].body).Some?
                       && (forall i | k < i < |es| :: Titles(es[i].body).None?) ::
              TitleAfter(es) == Titles(es[k].body)
  {
    if es != [] {
      var n := |es| - 1;
      TitleIsLast(es[..n]);
      forall i | 0 <= i < n ensures es[..n][i] == es[i] {}
    }
  }

  /** The failure shown is the last one since the source started. */
  lemma {:induction false} FailureIsLast(es: seq<Event>, k: nat)
    requires k < |es| && Shows(es[k].body, AnyFailure)
    requires forall i | k < i < |es| :: !Shows(es[i].body, AnyFailure) && !Shows(es[i].body, Start)
    ensures SourceAfter(es).failure == Some(es[k].body.failed.value)
  {
    if k < |es| - 1 {
      FailureIsLast(es[..|es| - 1], k);
    }
  }

  /** The capture mode a row sets. */
  function Modes(b: Body): Option<CaptureMode> {
    match b
    case MeetingDescribed(Good(info)) => info.mode
    case SourceStarted(Good(info)) => Some(info.mode)
    case _ => None
  }

  lemma {:induction false} ModeIsLast(es: seq<Event>, k: nat)
    requires k < |es| && Modes(es[k].body).Some?
    requires forall i | k < i < |es| :: Modes(es[i].body).None?
    ensures SourceAfter(es).mode == Modes(es[k].body)
  {
    if k < |es| - 1 {
      ModeIsLast(es[..|es| - 1], k);
    }
  }

  /** The kind of source a row speaks for. */
  function Sources(b: Body): Option<SourceKind> {
    match b
    case SourceStarted(Good(info)) => Some(info.source)
    case SourceFailed(Good(info)) => Some(info.source)
    case _ => None
  }

  lemma {:induction false} SourceIsLast(es: seq<Event>, k: nat)
    requires k < |es| && Sources(es[k].body).Some?
    requires forall i | k < i < |es| :: Sources(es[i].body).None?
    ensures SourceAfter(es).source == Sources(es[k].body)
  {
    if k < |es| - 1 {
      SourceIsLast(es[..|es| - 1], k);
    }
  }

  // ---- Lane meters -------------------------------------------------------------------------

  /** The captured times a lane's samples gave. */
  function CapturedMs(es: seq<Event>, lane: AudioLane): seq<nat> {
    if es == [] then []
    else
      var b := es[|es| - 1].body;
      CapturedMs(es[..|es| - 1], lane) + (if IsSample(b, lane) then [b.level.value.capturedMs] else [])
  }

  lemma MeterStep(s: SourceState, b: Body, lane: AudioLane)
    ensures var l, l' := LaneOf(s, lane), LaneOf(SourceStep(s, b), lane);
            if IsSample(b, lane) then
              && l'.levels == l.levels + 1 && l'.lastRms == Some(b.level.value.rms)
              && l'.capturedMs == Max(l.capturedMs, b.level.value.capturedMs)
            else l'.levels == l.levels && l'.lastRms == l.lastRms && l'.capturedMs == l.capturedMs
  {
  }

  /** A lane's level count is the number of its samples, its last level that of the last
      one, and its captured time the greatest any of them gave. */
  lemma {:induction false} LaneMeters(es: seq<Event>, lane: AudioLane)
    ensures var l, at := LaneOf(SourceAfter(es), lane), RowsAt(es, SampleRow(lane));
            && l.levels == |at|
            && l.lastRms == (if at == [] then None else Some(es[at[|at| - 1]].body.level.value.rms))
    ensures Greatest(LaneOf(SourceAfter(es), lane).capturedMs, CapturedMs(es, lane))
  {
    if es != [] {
      var init, b := es[..|es| - 1], es[|es| - 1].body;
      LaneMeters(init, lane);
      MeterStep(SourceAfter(init), b, lane);
      if IsSample(b, lane) {
        GreatestExtend(LaneOf(SourceAfter(init), lane).capturedMs, CapturedMs(init, lane), b.level.value.capturedMs);
      } else {
        assert CapturedMs(es, lane) == CapturedMs(init, lane);
      }
    }
  }
}
