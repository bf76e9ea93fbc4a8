/** From the capture helper's output lines to ledger rows, and on to what the meeting's
    projection then shows. */
module TranscriptSource {
  import opened Domain
  import opened Replay
  import opened Sequences
  import opened Store
  import opened Text
  import opened Redaction
  import opened DropReports
  import opened ProposalAgent
  import Capture = CaptureLane
  import Proposer

  datatype HelperEvent =
    | Started(mode: string)
    | Level(lane: string, rms: real, capturedMs: nat)
    | Dropped(lane: string, count: nat)
    | Partial(lane: string, speaker: Option<string>, text: string, startMs: nat, endMs: nat)
    | Final(lane: string, speaker: Option<string>, text: string, startMs: nat, endMs: nat)
    | Failed(failedLane: Option<string>, detail: Option<string>)
    | Stopped
    | Transcribed

  /** A line is ignored when it does not parse; a drop count has 32 bits. */
  predicate Parses(e: HelperEvent) {
    e.Dropped? ==> e.count < U32
  }

  function ParseMode(mode: string): CaptureMode {
    var mic, system := NextMatch(mode, "mic", 0).Some?, NextMatch(mode, "system", 0).Some?;
    if mic && !system then Mic else if system && !mic then System else MicAndSystem
  }

  function LaneFrom(lane: string): Option<AudioLane> {
    if lane in {"microphone", "mic", "me"} then Some(Microphone)
    else if lane in {"system_audio", "system"} then Some(SystemAudio)
    else None
  }

  /** The named speaker, or the lane's own. */
  function SpeakerFor(lane: string, speaker: Option<string>): Option<string> {
    if speaker.Some? && Stripped(speaker.value, SPACE) != "" then Some(Stripped(speaker.value, SPACE))
    else match LaneFrom(lane)
      case Some(Microphone) => Some("me")
      case Some(SystemAudio) => Some("system_audio")
      case None => None
  }

  function SegmentOf(e: HelperEvent, id: Id): Segment
    requires e.Partial? || e.Final?
  {
    Segment(id, SpeakerFor(e.lane, e.speaker), e.startMs, e.endMs, e.text, e.Final?, LocalMac)
  }

  /** The row a helper event becomes; none for an unknown lane's levels and drops. */
  function BodyOf(e: HelperEvent, id: Id): Option<Body> {
    match e
    case Started(mode) => Some(SourceStarted(Good(StartedInfo(LocalMac, ParseMode(mode)))))
    case Level(lane, rms, ms) =>
      if LaneFrom(lane).Some? then Some(LevelSampled(Good(LevelInfo(LaneFrom(lane).value, rms, ms)))) else None
    case Dropped(lane, count) =>
      if LaneFrom(lane).Some? then Some(BuffersDropped(Good(DroppedInfo(LaneFrom(lane).value, count)))) else None
    case Partial(_, _, _, _, _) => Some(SegmentPartial(Good(SegmentOf(e, id))))
    case Final(_, _, _, _, _) => Some(SegmentFinal(Good(SegmentOf(e, id))))
    case Failed(lane, detail) =>
      Some(SourceFailed(Good(FailedInfo(LocalMac, if lane.Some? then LaneFrom(lane.value) else None, detail))))
    case Stopped => Some(SourceStopped)
    case Transcribed => None
  }

  function RowOf(meeting: Id, e: HelperEvent, id: Id): seq<Event> {
    match BodyOf(e, id)
    case Some(body) => [Event(meeting, body)]
    case None => []
  }

  // ---- What each row says, by event -----------------------------------------------------

  predicate Contains(s: string, pattern: string) {
    exists i | 0 <= i <= |s| :: Occurs(s, pattern, i)
  }

  predicate Names(lane: string, l: AudioLane) {
    if l == Microphone then lane == "microphone" || lane == "mic" || lane == "me"
    else lane == "system_audio" || lane == "system"
  }

  /** Nothing is written for a level or a drop count of a lane nobody knows, nor for the
      events of the offline transcriber. */
  predicate LeavesNoRow(e: HelperEvent) {
    || e.Transcribed?
    || ((e.Level? || e.Dropped?) && !Names(e.lane, Microphone) && !Names(e.lane, SystemAudio))
  }

  /** The speaker named by the event, trimmed; failing that, the lane's own. */
  predicate Speaks(who: Option<string>, lane: string, speaker: Option<string>) {
    if speaker.Some? && Stripped(speaker.value, SPACE) != "" then who == Some(Stripped(speaker.value, SPACE))
    else if Names(lane, Microphone) then who == Some("me")
    else if Names(lane, SystemAudio) then who == Some("system_audio")
    else who.None?
  }

  predicate SegmentSays(s: Segment, e: HelperEvent, id: Id)
    requires e.Partial? || e.Final?
  {
    && s.id == id && s.text == e.text && s.startMs == e.startMs && s.endMs == e.endMs
    && s.isFinal == e.Final? && s.source == LocalMac && Speaks(s.speaker, e.lane, e.speaker)
  }

  /** What the row of an event says. A mode string asks for one lane alone when it mentions
      that one and not the other, and for both otherwise. */
  predicate RowSays(b: Body, e: HelperEvent, id: Id) {
    match e
    case Started(mode) =>
      && b.SourceStarted? && b.started.Good? && b.started.value.source == LocalMac
      && b.started.value.mode == (if Contains(mode, "mic") && !Contains(mode, "system") then Mic
                                  else if Contains(mode, "system") && !Contains(mode, "mic") then System
                                  else MicAndSystem)
    case Level(lane, rms, ms) =>
      && b.LevelSampled? && b.level.Good? && Names(lane, b.level.value.lane)
      && b.level.value.rms == rms && b.level.value.capturedMs == ms
    case Dropped(lane, count) =>
      && b.BuffersDropped? && b.dropped.Good? && Names(lane, b.dropped.value.lane) && b.dropped.value.count == count
    case Partial(_, _, _, _, _) => b.SegmentPartial? && b.partial.Good? && SegmentSays(b.partial.value, e, id)
    case Final(_, _, _, _, _) => b.SegmentFinal? && b.final.Good? && SegmentSays(b.final.value, e, id)
    case Failed(lane, detail) =>
      && b.SourceFailed? && b.failed.Good? && b.failed.value.source == LocalMac && b.failed.value.detail == detail
      && (if lane.Some? && (Names(lane.value, Microphone) || Names(lane.value, SystemAudio))
          then b.failed.value.lane.Some? && Names(lane.value, b.failed.value.lane.value)
          else b.failed.value.lane.None?)
    case Stopped => b == SourceStopped
    case Transcribed => false
  }

  lemma ContainsExactly(s: string, pattern: string)
    ensures NextMatch(s, pattern, 0).Some? <==> Contains(s, pattern)
  {
  }

  /** Each event leaves the row it should, in its meeting, or none. */
  lemma RowOfSays(meeting: Id, e: HelperEvent, id: Id)
    ensures var row := RowOf(meeting, e, id);
            if LeavesNoRow(e) then row == []
            else |row| == 1 && row[0].meeting == meeting && RowSays(row[0].body, e, id)
  {
    if e.Started? {
      ContainsExactly(e.mode, "mic");
      ContainsExactly(e.mode, "system");
    }
  }

  datatype Normalized = StoreError | Quiet | Finalized

  /** `LocalMacAudioSource::normalize`: at most one append, and whether it closed a
      transcript segment. */
  method Normalize(store: EventStore, meeting: Id, e: HelperEvent, id: Id, writable: bool) returns (r: Normalized)
    modifies store
    ensures store.events == old(store.events) + (if writable then RowOf(meeting, e, id) else [])
    ensures r == if RowOf(meeting, e, id) != [] && !writable then StoreError
                 else if e.Final? then Finalized else Quiet
  {
    var body := BodyOf(e, id);
    if body.Some? {
      if !writable {
        return StoreError;
      }
      store.Append(meeting, body.value);
    }
    r := if e.Final? then Finalized else Quiet;
  }

  // ---- The capture reader -------------------------------------------------------------

  /** What one line leaves. */
  function LineRow(meeting: Id, e: HelperEvent, id: Id, lost: bool): seq<Event> {
    if Parses(e) && !lost then RowOf(meeting, e, id) else []
  }

  function SaidIn(e: HelperEvent, id: Id, lost: bool): seq<Segment> {
    if e.Final? && !lost then [SegmentOf(e, id)] else []
  }

  function ReportIn(e: HelperEvent, lane: AudioLane): seq<nat> {
    if e.Dropped? && LaneFrom(e.lane) == Some(lane) then [e.count] else []
  }

  /** The rows a helper run leaves: a line that does not parse or whose append fails
      leaves none, and the reader carries on. */
  function RunRows(meeting: Id, lines: seq<HelperEvent>, newId: nat -> Id, lost: set<nat>): seq<Event> {
    if lines == [] then []
    else
      var k := |lines| - 1;
      RunRows(meeting, lines[..k], newId, lost) + LineRow(meeting, lines[k], newId(k), k in lost)
  }

  method ReadLines(store: EventStore, meeting: Id, lines: seq<HelperEvent>, newId: nat -> Id, lost: set<nat>)
    modifies store
    ensures store.events == old(store.events) + RunRows(meeting, lines, newId, lost)
  {
    for k := 0 to |lines|
      invariant store.events == old(store.events) + RunRows(meeting, lines[..k], newId, lost)
    {
      assert lines[..k + 1][..k] == lines[..k];
      if Parses(lines[k]) {
        var _ := Normalize(store, meeting, lines[k], newId(k), k !in lost);
        Associate(old(store.events), RunRows(meeting, lines[..k], newId, lost),
                  LineRow(meeting, lines[k], newId(k), k in lost));
      }
    }
    assert lines[..|lines|] == lines;
  }

  function FinalSegments(lines: seq<HelperEvent>, newId: nat -> Id, lost: set<nat>): seq<Segment> {
    if lines == [] then []
    else
      var k := |lines| - 1;
      FinalSegments(lines[..k], newId, lost) + SaidIn(lines[k], newId(k), k in lost)
  }

  /** The drop counts a run reports for a lane. */
  function LaneReports(lines: seq<HelperEvent>, lane: AudioLane): seq<nat> {
    if lines == [] then []
    else
      var e := lines[|lines| - 1];
      LaneReports(lines[..|lines| - 1], lane) + ReportIn(e, lane)
  }

  lemma CountsAppend(log: seq<Event>, e: Event, meeting: Id, lane: AudioLane)
    ensures Counts(Of(log + [e], meeting), lane) ==
            Counts(Of(log, meeting), lane) + (if e.meeting == meeting then CountIn(e.body, lane) else [])
  {
    OfAppend(log, e, meeting);
    var before, after := Of(log, meeting), Of(log + [e], meeting);
    if e.meeting == meeting {
      assert after[..|after| - 1] == before && after[|after| - 1] == e;
    } else {
      assert after == before;
    }
  }

  lemma LineRowsAre(meeting: Id, e: HelperEvent, id: Id, lost: bool, lane: AudioLane)
    ensures var row := LineRow(meeting, e, id, lost);
            || (row == [] && SaidIn(e, id, lost) == [] && (!lost && Parses(e) ==> ReportIn(e, lane) == []))
            || (&& |row| == 1 && row[0].meeting == meeting && Readable(row[0].body) && Parses(e) && !lost
                && FinalIn(row[0].body) == SaidIn(e, id, lost) && CountIn(row[0].body, lane) == ReportIn(e, lane))
  {
  }

  lemma LineReplay(base: seq<Event>, meeting: Id, e: HelperEvent, id: Id, lost: bool)
    ensures var after := base + LineRow(meeting, e, id, lost);
            && Finals(Of(after, meeting)) == Finals(Of(base, meeting)) + SaidIn(e, id, lost)
            && (AllReadable(Of(after, meeting)) <==> AllReadable(Of(base, meeting)))
  {
    var row := LineRow(meeting, e, id, lost);
    LineRowsAre(meeting, e, id, lost, Microphone);
    if row == [] {
      assert base + row == base;
    } else {
      assert row == [row[0]];
      StreamsAppend(base, row[0], meeting);
      ReadableAppend(base, row[0], meeting);
    }
  }

  lemma LineCounts(base: seq<Event>, meeting: Id, e: HelperEvent, id: Id, lane: AudioLane)
    ensures Counts(Of(base + LineRow(meeting, e, id, false), meeting), lane)
            == Counts(Of(base, meeting), lane) + (if Parses(e) then ReportIn(e, lane) else [])
  {
    var row := LineRow(meeting, e, id, false);
    LineRowsAre(meeting, e, id, false, lane);
    if row == [] {
      assert base + row == base;
    } else {
      assert row == [row[0]];
      CountsAppend(base, row[0], meeting, lane);
    }
  }

  lemma RunRowsLast(log: seq<Event>, meeting: Id, lines: seq<HelperEvent>, newId: nat -> Id, lost: set<nat>)
    requires lines != []
    ensures var k := |lines| - 1;
            log + RunRows(meeting, lines, newId, lost)
            == log + RunRows(meeting, lines[..k], newId, lost) + LineRow(meeting, lines[k], newId(k), k in lost)
  {
    var k := |lines| - 1;
    Associate(log, RunRows(meeting, lines[..k], newId, lost), LineRow(meeting, lines[k], newId(k), k in lost));
  }

  /** The transcript follows the helper: a run adds exactly its final segments, in the
      order they were said, each under its speaker; and the ledger stays as readable as
      it was. */
  lemma {:induction false} TranscriptFollowsHelper(log: seq<Event>, meeting: Id, lines: seq<HelperEvent>,
                                                   newId: nat -> Id, lost: set<nat>)
    ensures var after := log + RunRows(meeting, lines, newId, lost);
            && Finals(Of(after, meeting)) == Finals(Of(log, meeting)) + FinalSegments(lines, newId, lost)
            && (AllReadable(Of(after, meeting)) <==> AllReadable(Of(log, meeting)))
  {
    if lines == [] {
      assert log + RunRows(meeting, lines, newId, lost) == log;
    } else {
      var k := |lines| - 1;
      TranscriptFollowsHelper(log, meeting, lines[..k], newId, lost);
      RunRowsLast(log, meeting, lines, newId, lost);
      LineReplay(log + RunRows(meeting, lines[..k], newId, lost), meeting, lines[k], newId(k), k in lost);
      Associate(Finals(Of(log, meeting)), FinalSegments(lines[..k], newId, lost),
                SaidIn(lines[k], newId(k), k in lost));
    }
  }

  lemma DeliveredNext(counts: seq<nat>, reports: seq<nat>, e: HelperEvent, lane: AudioLane)
    requires Delivered(counts, reports)
    ensures Delivered(counts + (if Parses(e) then ReportIn(e, lane) else []), reports + ReportIn(e, lane))
  {
  }

  lemma {:induction false} CountsFollowHelper(log: seq<Event>, meeting: Id, lines: seq<HelperEvent>,
                                              newId: nat -> Id, lane: AudioLane)
    requires Counts(Of(log, meeting), lane) == []
    ensures Delivered(Counts(Of(log + RunRows(meeting, lines, newId, {}), meeting), lane), LaneReports(lines, lane))
  {
    if lines == [] {
      assert log + RunRows(meeting, lines, newId, {}) == log;
    } else {
      var k := |lines| - 1;
      var base := log + RunRows(meeting, lines[..k], newId, {});
      CountsFollowHelper(log, meeting, lines[..k], newId, lane);
      RunRowsLast(log, meeting, lines, newId, {});
      LineCounts(base, meeting, lines[k], newId(k), lane);
      DeliveredNext(Counts(Of(base, meeting), lane), LaneReports(lines[..k], lane), lines[k], lane);
    }
  }

  /** Drop accounting from the audio callback to the projection: if the lines of a
      finished run carry the lane's reports and every row is written, the projection
      shows the true number of dropped buffers if and only if it fits 32 bits. */
  lemma {:induction false} HelperRunShowsTotal(
    steps: seq<Capture.Step>, log: seq<Event>, meeting: Id, lines: seq<HelperEvent>, newId: nat -> Id, lane: AudioLane)
    requires Capture.Feasible(steps) && Capture.After(steps).consumer == Capture.Done && Capture.After(steps).clean
    requires Counts(Of(log, meeting), lane) == [] && LaneReports(lines, lane) == Capture.After(steps).reports
    ensures var es := Of(log + RunRows(meeting, lines, newId, {}), meeting);
            LaneOf(Derive(SourceAfter(es), Finals(es)), lane).dropped == Capture.After(steps).dropped
            <==> Capture.After(steps).dropped < 0x1_0000_0000
  {
    CountsFollowHelper(log, meeting, lines, newId, lane);
    Capture.LastReportIsTotal(steps);
    ProjectedDropsAreTotal(steps, Of(log + RunRows(meeting, lines, newId, {}), meeting), lane);
  }

  // ---- The synchronous path -----------------------------------------------------------

  function AutomaticRun(debounce: nat): Run {
    Run(None, [], 1, true, Some(debounce))
  }

  lemma OneCardAtMost(d: Decision, meeting: Id, transcript: seq<Segment>, debounce: nat, reply: Reply, newId: nat -> Id)
    requires Decides(d, meeting, transcript, AutomaticRun(debounce), reply, newId)
    ensures |DecisionRows(meeting, d, true)| <= 1
  {
  }

  lemma {:induction false} RowsReadable(log: seq<Event>, meeting: Id, rows: seq<Event>)
    requires AllReadable(rows) && AllReadable(Of(log, meeting))
    ensures AllReadable(Of(log + rows, meeting))
  {
    if rows == [] {
      assert log + rows == log;
    } else {
      var init, last := rows[..|rows| - 1], rows[|rows| - 1];
      assert last in rows && forall e | e in init :: e in rows;
      RowsReadable(log, meeting, init);
      assert log + rows == log + init + [last];
      ReadableAppend(log + init, last, meeting);
    }
  }

  lemma {:induction false} CardRowsReadable(meeting: Id, cards: seq<Proposal>)
    ensures AllReadable(CardRows(meeting, cards))
  {
    if cards != [] {
      CardRowsReadable(meeting, cards[..|cards| - 1]);
    }
  }

  lemma DecisionReadable(meeting: Id, d: Decision, writable: nat)
    ensures AllReadable(Cut(DecisionRows(meeting, d, true), writable))
  {
    CardRowsReadable(meeting, d.cards);
    var cards, rows := CardRows(meeting, d.cards), DecisionRows(meeting, d, true);
    forall e | e in Cut(rows, writable) ensures Readable(e.body) {
      assert e in rows;
      assert e in cards || (d.noProposal.Some? && e.body == ProposalNotCreated(Good(d.noProposal.value)));
    }
  }

  /** However much of a decision is written, the transcript and what decodes stay. */
  lemma DecisionKeeps(log: seq<Event>, meeting: Id, d: Decision, writable: nat)
    requires AllReadable(Of(log, meeting))
    ensures var after := log + Cut(DecisionRows(meeting, d, true), writable);
            Finals(Of(after, meeting)) == Finals(Of(log, meeting)) && AllReadable(Of(after, meeting))
  {
    DecisionReplay(log, meeting, d, true, writable);
    DecisionReadable(meeting, d, writable);
    RowsReadable(log, meeting, Cut(DecisionRows(meeting, d, true), writable));
  }

  /** The rows of one automatic run: those of a decision on the transcript as it was, as
      far as the store took them; none when the meeting does not decode. */
  ghost predicate Proposed(was: seq<Event>, now: seq<Event>, meeting: Id, debounce: nat, reply: Reply,
                           newId: nat -> Id, writable: nat, ok: bool)
  {
    if AllReadable(Of(was, meeting)) then
      exists d: Decision ::
        && Decides(d, meeting, Finals(Of(was, meeting)), Run(None, [], 1, true, Some(debounce)), reply, newId)
        && now == was + Cut(DecisionRows(meeting, d, true), writable)
        && (ok <==> |DecisionRows(meeting, d, true)| <= writable)
    else now == was && !ok
  }

  /** `propose_from_meeting_context` on a store that takes this many more rows. `gated`
      says whether the gate let the agent through. */
  method ProposeFromMeeting(store: EventStore, meeting: Id, debounce: nat, reply: Reply, newId: nat -> Id,
                            writable: nat)
    returns (ok: bool, gated: bool)
    modifies store
    ensures Proposed(old(store.events), store.events, meeting, debounce, reply, newId, writable, ok)
    ensures writable > 0 ==> (ok <==> AllReadable(Of(old(store.events), meeting)))
    ensures Finals(Of(store.events, meeting)) == Finals(Of(old(store.events), meeting))
    ensures AllReadable(Of(store.events, meeting)) <==> AllReadable(Of(old(store.events), meeting))
    ensures gated <==> && AllReadable(Of(old(store.events), meeting))
                       && Proposer.ShouldRun(|Finals(Of(store.events, meeting))|, debounce)
  {
    ProjectsFinals(store.events, meeting);
    ghost var before := store.events;
    var projection := store.Projection(meeting);
    if projection.None? {
      return false, false;
    }
    gated := Proposer.ShouldRun(|projection.value.transcript|, debounce);
    var d;
    ok, d := RunProposalAgent(store, meeting, AutomaticRun(debounce), reply, newId, writable);
    OneCardAtMost(d, meeting, projection.value.transcript, debounce, reply, newId);
    DecisionKeeps(before, meeting, d, writable);
  }

  /** What a line does once its row, if any, is in the ledger: the transcript gains what it
      said, and a segment of a readable meeting is put to the gate at its new length. */
  ghost predicate Heard(was: seq<Event>, now: seq<Event>, meeting: Id, said: seq<Segment>, debounce: nat, gated: bool) {
    && Finals(Of(now, meeting)) == Finals(Of(was, meeting)) + said
    && (AllReadable(Of(now, meeting)) <==> AllReadable(Of(was, meeting)))
    && (gated <==> && said != [] && AllReadable(Of(was, meeting))
                   && Proposer.ShouldRun(|Finals(Of(now, meeting))|, debounce))
  }

  /** `LocalMacAudioSource::ingest` on a store that takes this many more rows: one line,
      then, when it closed a segment, the debounced agent. */
  method Ingest(store: EventStore, meeting: Id, e: HelperEvent, id: Id, debounce: nat, reply: Reply, newId: nat -> Id,
                writable: nat)
    returns (ok: bool, gated: bool)
    requires Parses(e)
    modifies store
    ensures RowOf(meeting, e, id) != [] && writable == 0 ==> !ok && !gated && store.events == old(store.events)
    ensures RowOf(meeting, e, id) == [] || writable > 0 ==>
              Heard(old(store.events), store.events, meeting, SaidIn(e, id, false), debounce, gated)
    ensures !e.Final? && (RowOf(meeting, e, id) == [] || writable > 0) ==>
              ok && store.events == old(store.events) + RowOf(meeting, e, id)
    ensures e.Final? && writable > 0 ==>
              Proposed(old(store.events) + RowOf(meeting, e, id), store.events, meeting, debounce, reply, newId,
                       writable - 1, ok)
    ensures ok && e.Final? ==> AllReadable(Of(old(store.events), meeting))
    ensures writable > 1 ==> (ok <==> !e.Final? || AllReadable(Of(old(store.events), meeting)))
  {
    ghost var before, row, said := store.events, RowOf(meeting, e, id), SaidIn(e, id, false);
    var r := Normalize(store, meeting, e, id, writable > 0);
    if r != Finalized {
      LineReplay(before, meeting, e, id, false);
      return r == Quiet, false;
    }
    ghost var noted := store.events;
    assert noted == before + row && said != [];
    LineReplay(before, meeting, e, id, false);
    ok, gated := ProposeFromMeeting(store, meeting, debounce, reply, newId, writable - 1);
    assert Heard(before, store.events, meeting, said, debounce, gated);
    assert Proposed(before + row, store.events, meeting, debounce, reply, newId, writable - 1, ok);
  }

  // ---- The ingest endpoint ------------------------------------------------------------

  /** What a line of the endpoint's input turns out to be. A diarized segment comes with
      the speaker its label stands for, if any. */
  datatype Line =
    | Described(info: MeetingInfo)
    | Helper(event: HelperEvent)
    | Diarized(speaker: Option<string>, text: string, startMs: nat, endMs: nat, final: bool)
    | Noise

  function DiarizedSegment(l: Line, id: Id): Segment
    requires l.Diarized?
  {
    Segment(id, l.speaker, l.startMs, l.endMs, l.text, l.final, SourceKind.Diarization)
  }

  function DiarizedBody(l: Line, id: Id): Body
    requires l.Diarized?
  {
    if l.final then SegmentFinal(Good(DiarizedSegment(l, id))) else SegmentPartial(Good(DiarizedSegment(l, id)))
  }

  /** The rows a line leaves before any proposal. */
  function OwnRow(meeting: Id, l: Line, id: Id): seq<Event> {
    match l
    case Described(info) => [Event(meeting, MeetingDescribed(Good(info)))]
    case Helper(e) => LineRow(meeting, e, id, false)
    case Diarized(speaker, text, start, end, final) =>
      var segment := Segment(id, speaker, start, end, text, final, SourceKind.Diarization);
      [Event(meeting, if final then SegmentFinal(Good(segment)) else SegmentPartial(Good(segment)))]
    case Noise => []
  }

  /** The segment a line closes. */
  function Closes(l: Line, id: Id): seq<Segment> {
    match l
    case Helper(e) => SaidIn(e, id, false)
    case Diarized(speaker, text, start, end, final) =>
      if final then [Segment(id, speaker, start, end, text, true, SourceKind.Diarization)] else []
    case _ => []
  }

  /** What lines close between them, in order. */
  function Closed(lines: seq<Line>, newId: nat -> Id): seq<Segment> {
    if lines == [] then []
    else
      var k := |lines| - 1;
      Closed(lines[..k], newId) + Closes(lines[k], newId(k))
  }

  lemma RowHeard(base: seq<Event>, meeting: Id, b: Body)
    requires Readable(b)
    ensures Finals(Of(base + [Event(meeting, b)], meeting)) == Finals(Of(base, meeting)) + FinalIn(b)
    ensures AllReadable(Of(base + [Event(meeting, b)], meeting)) <==> AllReadable(Of(base, meeting))
  {
    StreamsAppend(base, Event(meeting, b), meeting);
    ReadableAppend(base, Event(meeting, b), meeting);
  }

  /** `DiarizationProvider::ingest`: the same for a segment of another provider. */
  method IngestDiarized(store: EventStore, meeting: Id, l: Line, id: Id, debounce: nat, reply: Reply,
                        newId: nat -> Id, writable: nat)
    returns (ok: bool, gated: bool)
    requires l.Diarized?
    modifies store
    ensures writable == 0 ==> !ok && !gated && store.events == old(store.events)
    ensures writable > 0 ==> Heard(old(store.events), store.events, meeting, Closes(l, id), debounce, gated)
    ensures writable > 0 && !l.final ==> ok && store.events == old(store.events) + OwnRow(meeting, l, id)
    ensures writable > 0 && l.final ==>
              Proposed(old(store.events) + OwnRow(meeting, l, id), store.events, meeting, debounce, reply, newId,
                       writable - 1, ok)
    ensures ok && l.final ==> AllReadable(Of(old(store.events), meeting))
    ensures writable > 1 ==> (ok <==> !l.final || AllReadable(Of(old(store.events), meeting)))
  {
    if writable == 0 {
      return false, false;
    }
    ghost var before := store.events;
    store.Append(meeting, DiarizedBody(l, id));
    RowHeard(before, meeting, DiarizedBody(l, id));
    if !l.final {
      return true, false;
    }
    ok, gated := ProposeFromMeeting(store, meeting, debounce, reply, newId, writable - 1);
  }

  /** One line of the endpoint's input; `heard` says whether its row, if any, was written. */
  method IngestNext(store: EventStore, meeting: Id, l: Line, id: Id, debounce: nat, reply: Reply,
                    newId: nat -> Id, writable: nat)
    returns (ok: bool, gated: bool, ghost heard: bool)
    modifies store
    ensures heard <==> OwnRow(meeting, l, id) == [] || writable > 0
    ensures !heard ==> !ok && !gated && store.events == old(store.events)
    ensures heard ==> Heard(old(store.events), store.events, meeting, Closes(l, id), debounce, gated)
    ensures heard && Closes(l, id) == [] ==> ok && store.events == old(store.events) + OwnRow(meeting, l, id)
    ensures heard && Closes(l, id) != [] ==>
              Proposed(old(store.events) + OwnRow(meeting, l, id), store.events, meeting, debounce, reply, newId,
                       writable - 1, ok)
    ensures ok && Closes(l, id) != [] ==> AllReadable(Of(old(store.events), meeting))
    ensures writable > 1 ==> (ok <==> Closes(l, id) == [] || AllReadable(Of(old(store.events), meeting)))
  {
    heard := OwnRow(meeting, l, id) == [] || writable > 0;
    match l {
      case Described(info) =>
        if writable == 0 {
          return false, false, false;
        }
        RowHeard(store.events, meeting, MeetingDescribed(Good(info)));
        store.Append(meeting, MeetingDescribed(Good(info)));
        ok, gated := true, false;
      case Helper(e) =>
        if Parses(e) {
          ok, gated := Ingest(store, meeting, e, id, debounce, reply, newId, writable);
        } else {
          ok, gated := true, false;
        }
      case Diarized(_, _, _, _, _) =>
        ok, gated := IngestDiarized(store, meeting, l, id, debounce, reply, newId, writable);
      case Noise =>
        ok, gated := true, false;
    }
  }

  /** Lines heard so far: the transcript has grown by what they said, and over a readable
      meeting each length it passed through was put to the gate once. */
  ghost predicate Ingested(was: seq<Event>, now: seq<Event>, meeting: Id, said: seq<Segment>, debounce: nat,
                           calls: nat)
  {
    && Finals(Of(now, meeting)) == Finals(Of(was, meeting)) + said
    && (AllReadable(Of(now, meeting)) <==> AllReadable(Of(was, meeting)))
    && var before, after := |Finals(Of(was, meeting))|, |Finals(Of(now, meeting))|;
       if AllReadable(Of(was, meeting)) then
         Proposer.GateCount(before, debounce) + calls == Proposer.GateCount(after, debounce)
       else calls == 0
  }

  lemma IngestedNext(was: seq<Event>, now: seq<Event>, next: seq<Event>, meeting: Id, said: seq<Segment>,
                     more: seq<Segment>, debounce: nat, calls: nat, gated: bool)
    requires Ingested(was, now, meeting, said, debounce, calls)
    requires |more| <= 1 && Heard(now, next, meeting, more, debounce, gated)
    ensures Ingested(was, next, meeting, said + more, debounce, calls + (if gated then 1 else 0))
  {
    Associate(Finals(Of(was, meeting)), said, more);
    if more != [] && AllReadable(Of(was, meeting)) {
      Proposer.GateCountStep(|Finals(Of(now, meeting))|, debounce, gated);
    }
  }

  lemma ClosedNext(lines: seq<Line>, k: nat, newId: nat -> Id)
    requires k < |lines|
    ensures Closed(lines[..k + 1], newId) == Closed(lines[..k], newId) + Closes(lines[k], newId(k))
  {
    assert lines[..k + 1][..k] == lines[..k];
  }

  lemma LineIngested(was: seq<Event>, now: seq<Event>, next: seq<Event>, meeting: Id, lines: seq<Line>,
                     k: nat, newId: nat -> Id, debounce: nat, calls: nat, gated: bool)
    requires k < |lines|
    requires Ingested(was, now, meeting, Closed(lines[..k], newId), debounce, calls)
    requires Heard(now, next, meeting, Closes(lines[k], newId(k)), debounce, gated)
    ensures Ingested(was, next, meeting, Closed(lines[..k + 1], newId), debounce,
                     calls + (if gated then 1 else 0))
  {
    ClosedNext(lines, k, newId);
    IngestedNext(was, now, next, meeting, Closed(lines[..k], newId), Closes(lines[k], newId(k)),
                 debounce, calls, gated);
  }

  lemma FromEmpty(was: seq<Event>, now: seq<Event>, meeting: Id, said: seq<Segment>, debounce: nat, calls: nat)
    requires Ingested(was, now, meeting, said, debounce, calls)
    requires AllReadable(Of(was, meeting)) && Finals(Of(was, meeting)) == []
    ensures Proposer.CallsFromEmpty(calls, |Finals(Of(now, meeting))|, debounce)
  {
    Proposer.CallsFromEmptyAre(calls, |Finals(Of(now, meeting))|, debounce);
  }

  lemma {:induction false} SomeSaid(lines: seq<Line>, k: nat, newId: nat -> Id)
    requires k <= |lines| && Closed(lines[..k], newId) != []
    ensures Closed(lines, newId) != []
    decreases |lines|
  {
    if k < |lines| {
      var init := lines[..|lines| - 1];
      assert lines[..k] == init[..k];
      SomeSaid(init, k, newId);
    } else {
      assert lines[..k] == lines;
    }
  }

  /** Some line found fewer than two rows' room. */
  ghost predicate Cramped(writable: nat -> nat, lines: nat) {
    exists k: nat :: k < lines && writable(k) < 2
  }

  method IngestLine(store: EventStore, meeting: Id, lines: seq<Line>, k: nat, newId: nat -> Id, debounce: nat,
                    reply: Reply, newIds: nat -> Id, writable: nat, ghost was: seq<Event>, ghost calls: nat)
    returns (ok: bool, gated: bool, ghost heard: bool)
    requires k < |lines| && Ingested(was, store.events, meeting, Closed(lines[..k], newId), debounce, calls)
    modifies store
    ensures ok ==> heard
    ensures Ingested(was, store.events, meeting, Closed(lines[..if heard then k + 1 else k], newId), debounce,
                     calls + (if gated then 1 else 0))
    ensures Closed(lines[..k + 1], newId) == Closed(lines[..k], newId) + Closes(lines[k], newId(k))
    ensures ok && Closes(lines[k], newId(k)) != [] ==> AllReadable(Of(was, meeting))
    ensures writable > 1 ==> heard && (ok <==> Closes(lines[k], newId(k)) == [] || AllReadable(Of(was, meeting)))
  {
    ghost var now := store.events;
    ok, gated, heard := IngestNext(store, meeting, lines[k], newId(k), debounce, reply, newIds, writable);
    ClosedNext(lines, k, newId);
    if heard {
      LineIngested(was, now, store.events, meeting, lines, k, newId, debounce, calls, gated);
    }
  }

  /** The ingest endpoint: line after line under one hold of the store, stopping at the
      first error. Whatever fails, the transcript gains what a prefix of the lines said,
      and over a readable meeting every length it reaches is put to the gate once: n
      segments on an empty meeting make the agent pass it exactly (n - 2) / d + 1 times,
      and never below two. An unreadable meeting stops at the first final segment. */
  method IngestLines(store: EventStore, meeting: Id, lines: seq<Line>, newId: nat -> Id, debounce: nat,
                     replies: nat -> Reply, newIds: nat -> nat -> Id, writable: nat -> nat)
    returns (ok: bool, calls: nat, ghost taken: nat)
    modifies store
    ensures taken <= |lines| && (ok ==> taken == |lines|)
    ensures Ingested(old(store.events), store.events, meeting, Closed(lines[..taken], newId),
                     debounce, calls)
    ensures ok ==> AllReadable(Of(old(store.events), meeting)) || Closed(lines, newId) == []
    ensures Cramped(writable, |lines|)
            || (ok <==> AllReadable(Of(old(store.events), meeting)) || Closed(lines, newId) == [])
    ensures Finals(Of(old(store.events), meeting)) == [] && AllReadable(Of(old(store.events), meeting)) ==>
              Proposer.CallsFromEmpty(calls, |Finals(Of(store.events, meeting))|, debounce)
  {
    ghost var was := store.events;
    ghost var readable := AllReadable(Of(was, meeting));
    ok, calls, taken := true, 0, 0;
    for k := 0 to |lines|
      invariant taken == k
      invariant Ingested(was, store.events, meeting, Closed(lines[..k], newId), debounce, calls)
      invariant readable || Closed(lines[..k], newId) == []
    {
      var gated;
      ghost var heard;
      ok, gated, heard := IngestLine(store, meeting, lines, k, newId, debounce, replies(k), newIds(k), writable(k),
                                     was, calls);
      taken := if heard then k + 1 else k;
      calls := calls + (if gated then 1 else 0);
      if !ok {
        if writable(k) > 1 {
          SomeSaid(lines, k + 1, newId);
        } else {
          assert Cramped(writable, |lines|);
        }
        break;
      }
    }
    assert ok ==> lines[..taken] == lines;
    if readable && Finals(Of(was, meeting)) == [] {
      FromEmpty(was, store.events, meeting, Closed(lines[..taken], newId), debounce, calls);
    }
  }
}
