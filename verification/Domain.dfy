/** The vocabulary of the ledger: identifiers, decoded payloads and the values that
    events carry. Field by field this follows the Rust domain types, minus the
    fields no scan reads (titles, workers, budgets in dollars, event timestamps). */
module Domain {

  /** An opaque identifier: only equality matters to the ledger. */
  type Id(==, !new)

  datatype Option<+T> = None | Some(value: T) {
    function GetOr(default: T): T {
      if Some? then value else default
    }
  }

  /** The result of decoding a stored payload. An undecodable payload may still
      show its `id` field, which is all that job recovery needs from it. */
  datatype Decoded<+T> = Good(value: T) | Bad(readableId: Option<Id>)

  /** A value stored under an identifier: what the Rust trait HasId abstracts. */
  datatype Keyed<+T> = Keyed(id: Id, body: T)

  datatype SourceKind = Demo | Bot | Platform | LocalMac | Diarization

  datatype CaptureMode = Mic | System | MicAndSystem {
    predicate HasMic() { this != System }
    predicate HasSystem() { this != Mic }
  }

  datatype AudioLane = Microphone | SystemAudio

  datatype Segment = Segment(
    id: Id,
    speaker: Option<string>,
    startMs: nat,
    endMs: nat,
    text: string,
    isFinal: bool,
    source: SourceKind)

  datatype Evidence = Evidence(
    segmentId: Id,
    speaker: Option<string>,
    startMs: nat,
    endMs: nat,
    text: string)

  function Cite(segment: Segment): Evidence {
    Evidence(segment.id, segment.speaker, segment.startMs, segment.endMs, segment.text)
  }

  function EvidenceIds(evidence: seq<Evidence>): (ids: seq<Id>)
    ensures |ids| == |evidence|
    ensures forall i | 0 <= i < |evidence| :: ids[i] == evidence[i].segmentId
  {
    if evidence == [] then []
    else EvidenceIds(evidence[..|evidence| - 1]) + [evidence[|evidence| - 1].segmentId]
  }

  datatype ProposalStatus = Proposed | Approved | Ignored

  datatype ProposalBody = ProposalBody(
    meeting: Id,
    title: string,
    draftPrompt: string,
    evidence: seq<Evidence>,
    confidence: real,
    status: ProposalStatus)

  type Proposal = Keyed<ProposalBody>

  datatype JobStatus = Queued | Running | Completed | Failed | Canceled {
    predicate Live() { this == Queued || this == Running }
  }

  datatype JobFailure = CliNotFound | AuthRequired | Timeout | NonzeroExit | SandboxViolation | Unknown

  datatype JobBody = JobBody(
    meeting: Id,
    proposal: Option<Id>,
    prompt: string,
    maxMinutes: nat,
    spans: seq<Id>,
    status: JobStatus,
    note: Option<string>,
    failure: Option<JobFailure>,
    receipt: Option<string>)

  type Job = Keyed<JobBody>

  datatype Artifact = Artifact(id: Id, job: Id)

  datatype ProposalRequest = ProposalRequest(id: Id, spans: seq<Id>, maxProposals: nat)

  datatype NoProposal = NoProposal(id: Id, spans: seq<Id>, reason: string)

  datatype MeetingInfo = MeetingInfo(title: Option<string>, mode: Option<CaptureMode>)

  datatype StartedInfo = StartedInfo(source: SourceKind, mode: CaptureMode)

  datatype LevelInfo = LevelInfo(lane: AudioLane, rms: real, capturedMs: nat)

  datatype DroppedInfo = DroppedInfo(lane: AudioLane, count: nat)

  datatype FailedInfo = FailedInfo(source: SourceKind, lane: Option<AudioLane>, detail: Option<string>)

  datatype ProposalVerb = Created | Approve | Ignore

  datatype JobVerb = Requested | Started | Progress | Complete | Fail | Cancel {
    predicate Terminal() { this == Complete || this == Fail || this == Cancel }
  }

  /** One constructor per event type. Every event type fixes what its payload is
      decoded as, so the payload is a `Decoded` of that type. A payload that is never
      decoded can still fail to be JSON, which makes its row `Garbled`. */
  datatype Body =
    | MeetingDescribed(meeting: Decoded<MeetingInfo>)
    | MeetingRenamed(title: Decoded<string>)
    | SourceStarted(started: Decoded<StartedInfo>)
    | SourceFailed(failed: Decoded<FailedInfo>)
    | SourceStopped
    | LevelSampled(level: Decoded<LevelInfo>)
    | BuffersDropped(dropped: Decoded<DroppedInfo>)
    | SegmentPartial(partial: Decoded<Segment>)
    | SegmentFinal(final: Decoded<Segment>)
    | RequestCreated(request: Decoded<ProposalRequest>)
    | ProposalNotCreated(noProposal: Decoded<NoProposal>)
    | ProposalEvent(verb: ProposalVerb, proposal: Decoded<Proposal>)
    | JobEvent(kind: JobVerb, job: Decoded<Job>)
    | ArtifactCreated(artifact: Decoded<Artifact>)
    | Other
    | Garbled

  datatype Event = Event(meeting: Id, body: Body)
}
