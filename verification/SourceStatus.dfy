/** The projected capture status, stated as facts about the log rather than as a
    fold, and proved equal to what the fold and its final adjustment produce. */
module SourceMeaning {
  import opened Domain
  import opened Replay

  predicate IsSample(b: Body, lane: AudioLane) {
    b.LevelSampled? && b.level.Good? && b.level.value.lane == lane
  }

  /** What a single row can show about the source. */
  datatype Mark =
    | Start | Stop | AnyFailure | Speech | Mode | DemoFinal
    | Expects(lane: AudioLane) | Sample(lane: AudioLane) | Loud(lane: AudioLane) | Fails(lane: AudioLane)

  predicate Shows(b: Body, mark: Mark) {
    match mark
    case Start => b.SourceStarted? && b.started.Good?
    case Stop => b.SourceStopped?
    case AnyFailure => b.SourceFailed? && b.failed.Good?
    case Speech => (b.SegmentPartial? && b.partial.Good?) || (b.SegmentFinal? && b.final.Good?)
    case Mode => b.MeetingDescribed? && b.meeting.Good? && b.meeting.value.mode.Some?
    case DemoFinal => b.SegmentFinal? && b.final.Good? && b.final.value.source == SourceKind.Demo
    case Expects(lane) =>
      || IsSample(b, lane)
      || (b.SourceStarted? && b.started.Good?
          && b.started.value.mode in (if lane == Microphone then {Mic, MicAndSystem} else {System, MicAndSystem}))
    case Sample(lane) => IsSample(b, lane)
    case Loud(lane) => IsSample(b, lane) && b.level.value.rms >= 0.005
    case Fails(lane) => b.SourceFailed? && b.failed.Good? && b.failed.value.lane == Some(lane)
  }

  /** Which rows show the mark. */
  function Column(es: seq<Event>, mark: Mark): (c: seq<bool>)
    ensures |c| == |es|
    ensures forall i | 0 <= i < |es| :: c[i] == Shows(es[i].body, mark)
  {
    seq(|es|, i requires 0 <= i < |es| => Shows(es[i].body, mark))
  }

  /** Some row is marked and no later row resets. */
  ghost predicate SinceIn(marked: seq<bool>, resets: seq<bool>)
    requires |marked| == |resets|
  {
    exists k | 0 <= k < |marked| :: marked[k] && forall i | k < i < |resets| :: !resets[i]
  }

  /** Some row shows the mark and no later row starts the source. */
  ghost predicate Since(es: seq<Event>, mark: Mark) {
    SinceIn(Column(es, mark), Column(es, Start))
  }

  ghost predicate Ever(es: seq<Event>, mark: Mark) {
    true in Column(es, mark)
  }

  /** Row k fails the whole source: its lane is not system audio, or the microphone
      is not expected at that point. */
  ghost predicate FailsWhole(es: seq<Event>, k: int)
    requires 0 <= k < |es|
  {
    && Shows(es[k].body, AnyFailure)
    && (es[k].body.failed.value.lane != Some(SystemAudio) || !Since(es[..k], Expects(Microphone)))
  }

  ghost function FailColumn(es: seq<Event>): (c: seq<bool>)
    ensures |c| == |es|
    ensures forall i | 0 <= i < |es| :: c[i] == FailsWhole(es, i)
  {
    seq(|es|, i requires 0 <= i < |es| => FailsWhole(es, i))
  }

  /** Some whole-source failure has no later start. */
  ghost predicate FailedSince(es: seq<Event>) {
    SinceIn(FailColumn(es), Column(es, Start))
  }

  ghost predicate Silent(es: seq<Event>, lane: AudioLane) {
    Since(es, Expects(lane)) && !Ever(es, Loud(lane)) && Ever(es, Sample(lane))
  }

  /** The declarative decision table for the projected status. */
  ghost function StatusMeaning(es: seq<Event>): SourceStatus {
    if FailedSince(es) then SourceStatus.Failed
    else if !Ever(es, Start) && !Since(es, AnyFailure) then
      if Ever(es, DemoFinal) then SourceStatus.Demo
      else if Ever(es, Mode) then WaitingPermission
      else if Since(es, Stop) then Stopped
      else Idle
    else if Since(es, Stop) then Stopped
    else if !Ever(es, Start) then Idle
    else if !Since(es, AnyFailure) && Silent(es, SystemAudio) && !Silent(es, Microphone) then NoSystemAudio
    else if !Since(es, AnyFailure) && Silent(es, Microphone) && !Silent(es, SystemAudio) then NoMicAudio
    else if Since(es, Speech) then Transcribing
    else Capturing
  }

  lemma SinceInStep(marked: seq<bool>, starts: seq<bool>, m: bool, st: bool)
    requires |marked| == |starts|
    ensures SinceIn(marked + [m], starts + [st]) <==> m || (!st && SinceIn(marked, starts))
  {
    var ms, ss, n := marked + [m], starts + [st], |marked|;
    if m {
      assert ms[n];
    }
    if !st && SinceIn(marked, starts) {
      var k :| 0 <= k < n && marked[k] && forall i | k < i < n :: !starts[i];
      assert ms[k] && forall i | k < i < |ss| :: !ss[i];
    }
    if !m && SinceIn(ms, ss) {
      var k :| 0 <= k < |ms| && ms[k] && forall i | k < i < |ss| :: !ss[i];
      assert k != n && !ss[n];
      assert marked[k] && forall i | k < i < n :: !starts[i] by {
        assert forall i | k < i < n :: starts[i] == ss[i];
      }
    }
  }

  lemma ColumnStep(es: seq<Event>, mark: Mark)
    requires es != []
    ensures Column(es, mark) == Column(es[..|es| - 1], mark) + [Shows(es[|es| - 1].body, mark)]
  {
  }

  lemma SinceStep(es: seq<Event>, mark: Mark)
    requires es != []
    ensures var b := es[|es| - 1].body;
            Since(es, mark) <==> Shows(b, mark) || (!Shows(b, Start) && Since(es[..|es| - 1], mark))
    ensures Ever(es, mark) <==> Shows(es[|es| - 1].body, mark) || Ever(es[..|es| - 1], mark)
  {
    ColumnStep(es, mark);
    ColumnStep(es, Start);
    var init, b := es[..|es| - 1], es[|es| - 1].body;
    SinceInStep(Column(init, mark), Column(init, Start), Shows(b, mark), Shows(b, Start));
  }

  lemma FailedStep(es: seq<Event>)
    requires es != []
    ensures var n := |es| - 1;
            FailedSince(es) <==> FailsWhole(es, n) || (!Shows(es[n].body, Start) && FailedSince(es[..n]))
  {
    var n := |es| - 1;
    var init := es[..n];
    ColumnStep(es, Start);
    forall i | 0 <= i < n ensures FailsWhole(es, i) == FailsWhole(init, i) {
      assert es[..i] == init[..i];
    }
    assert FailColumn(es) == FailColumn(init) + [FailsWhole(es, n)];
    SinceInStep(FailColumn(init), Column(init, Start), FailsWhole(es, n), Shows(es[n].body, Start));
  }

  lemma LaneStep(s: SourceState, b: Body, lane: AudioLane)
    ensures var l, l' := LaneOf(s, lane), LaneOf(SourceStep(s, b), lane);
            && (l'.expected <==> Shows(b, Expects(lane)) || (!Shows(b, Start) && l.expected))
            && (l'.active <==> Shows(b, Loud(lane)) || l.active)
            && (l'.levels > 0 <==> Shows(b, Sample(lane)) || l.levels > 0)
  {
  }

  /** The lane flags of the fold. Only the expectation starts afresh when the source
      does; a lane once active or sampled stays so. */
  lemma {:induction false} LaneMeaning(es: seq<Event>, lane: AudioLane)
    ensures var l := LaneOf(SourceAfter(es), lane);
            && (l.expected <==> Since(es, Expects(lane)))
            && (l.active <==> Ever(es, Loud(lane)))
            && (l.levels > 0 <==> Ever(es, Sample(lane)))
  {
    if es != [] {
      var init, b := es[..|es| - 1], es[|es| - 1].body;
      LaneMeaning(init, lane);
      LaneStep(SourceAfter(init), b, lane);
      SinceStep(es, Expects(lane));
      SinceStep(es, Loud(lane));
      SinceStep(es, Sample(lane));
    }
  }

  lemma LaneFailedStep(s: SourceState, b: Body, lane: AudioLane)
    ensures LaneOf(SourceStep(s, b), lane).failed <==> Shows(b, Fails(lane)) || LaneOf(s, lane).failed
  {
  }

  /** A lane once failed stays so, whatever starts later. */
  lemma {:induction false} LaneFailedMeaning(es: seq<Event>, lane: AudioLane)
    ensures LaneOf(SourceAfter(es), lane).failed <==> Ever(es, Fails(lane))
  {
    if es != [] {
      LaneFailedMeaning(es[..|es| - 1], lane);
      LaneFailedStep(SourceAfter(es[..|es| - 1]), es[|es| - 1].body, lane);
      SinceStep(es, Fails(lane));
    }
  }

  lemma FlagStep(s: SourceState, b: Body)
    ensures var s' := SourceStep(s, b);
            && (s'.started <==> Shows(b, Start) || s.started)
            && (s'.stopped <==> Shows(b, Stop) || (!Shows(b, Start) && s.stopped))
            && (s'.failure.Some? <==> Shows(b, AnyFailure) || (!Shows(b, Start) && s.failure.Some?))
            && (!s'.started ==> (s'.mode.Some? <==> Shows(b, Mode) || s.mode.Some?))
  {
  }

  lemma {:induction false} FlagMeaning(es: seq<Event>)
    ensures var s := SourceAfter(es);
            && (s.started <==> Ever(es, Start))
            && (s.stopped <==> Since(es, Stop))
            && (s.failure.Some? <==> Since(es, AnyFailure))
            && (!s.started ==> (s.mode.Some? <==> Ever(es, Mode)))
  {
    if es != [] {
      var init, b := es[..|es| - 1], es[|es| - 1].body;
      FlagMeaning(init);
      FlagStep(SourceAfter(init), b);
      SinceStep(es, Start);
      SinceStep(es, Stop);
      SinceStep(es, AnyFailure);
      SinceStep(es, Mode);
    }
  }

  /** The status the fold reaches, from the facts it depends on. */
  function RawStatus(failed: bool, stopped: bool, started: bool, spoke: bool): SourceStatus {
    if failed then SourceStatus.Failed
    else if stopped then Stopped
    else if !started then Idle
    else if spoke then Transcribing else Capturing
  }

  lemma RawStep(s: SourceState, b: Body, failed: bool, stopped: bool, spoke: bool)
    requires s.status == RawStatus(failed, stopped, s.started, spoke)
    ensures var start := Shows(b, Start);
            SourceStep(s, b).status
            == RawStatus((Shows(b, AnyFailure) && WholeFailure(b.failed.value, s.mic.expected)) || (!start && failed),
                         Shows(b, Stop) || (!start && stopped),
                         start || s.started,
                         Shows(b, Speech) || (!start && spoke))
  {
  }

  lemma {:induction false} RawMeaning(es: seq<Event>)
    ensures SourceAfter(es).status
            == RawStatus(FailedSince(es), Since(es, Stop), SourceAfter(es).started, Since(es, Speech))
  {
    if es != [] {
      var init, b := es[..|es| - 1], es[|es| - 1].body;
      RawMeaning(init);
      RawStep(SourceAfter(init), b, FailedSince(init), Since(init, Stop), Since(init, Speech));
      LaneMeaning(init, Microphone);
      FlagStep(SourceAfter(init), b);
      FailedStep(es);
      SinceStep(es, Stop);
      SinceStep(es, Speech);
    }
  }

  lemma {:induction false} DemoMeaning(es: seq<Event>)
    ensures HasDemo(Finals(es)) <==> Ever(es, DemoFinal)
  {
    if es != [] {
      var init, b := es[..|es| - 1], es[|es| - 1].body;
      DemoMeaning(init);
      SinceStep(es, DemoFinal);
      DemoAppend(Finals(init), FinalIn(b));
      assert Shows(b, DemoFinal) <==> FinalIn(b) != [] && FinalIn(b)[0].source == SourceKind.Demo;
    }
  }

  lemma DemoAppend(before: seq<Segment>, added: seq<Segment>)
    requires |added| <= 1
    ensures HasDemo(before + added) <==> HasDemo(before) || (added != [] && added[0].source == SourceKind.Demo)
  {
    var after := before + added;
    assert forall i | 0 <= i < |before| :: after[i] == before[i];
    assert added != [] ==> after[|before|] == added[0];
  }

  /** The derivation as a decision over plain facts. */
  lemma DeriveDecides(s: SourceState, transcript: seq<Segment>, failed: bool, stopped: bool, speech: bool)
    requires s.status == RawStatus(failed, stopped, s.started, speech) && s.stopped == stopped
    requires failed ==> s.failure.Some?
    ensures Derive(s, transcript).status ==
            if failed then SourceStatus.Failed
            else if !s.started && s.failure.None? then
              if HasDemo(transcript) then SourceStatus.Demo
              else if s.mode.Some? then WaitingPermission
              else if stopped then Stopped
              else Idle
            else if stopped then Stopped
            else if !s.started then Idle
            else if s.failure.None? && LaneSilent(s.system) && !LaneSilent(s.mic) then NoSystemAudio
            else if s.failure.None? && LaneSilent(s.mic) && !LaneSilent(s.system) then NoMicAudio
            else if speech then Transcribing
            else Capturing
  {
  }

  /** Status replay meets its declarative meaning on every log. */
  lemma StatusReplay(es: seq<Event>)
    ensures Derive(SourceAfter(es), Finals(es)).status == StatusMeaning(es)
  {
    RawMeaning(es);
    FlagMeaning(es);
    LaneMeaning(es, Microphone);
    LaneMeaning(es, SystemAudio);
    DemoMeaning(es);
    DeriveDecides(SourceAfter(es), Finals(es), FailedSince(es), Since(es, Stop), Since(es, Speech));
  }

  /** What the interface relies on. Failed means exactly a whole-source failure with
      no later start; once started, a stopped source shows Stopped or Failed and a
      source neither stopped nor failed shows one of the four live states. */
  lemma StatusHonesty(es: seq<Event>)
    ensures var s := Derive(SourceAfter(es), Finals(es));
            && (s.status == SourceStatus.Failed <==> FailedSince(es))
            && (Ever(es, Start) && Since(es, Stop) ==> s.status == Stopped || s.status == SourceStatus.Failed)
            && (Ever(es, Start) && !Since(es, Stop) && s.status != SourceStatus.Failed ==>
                  s.status in {Capturing, Transcribing, NoMicAudio, NoSystemAudio})
  {
    StatusReplay(es);
    FlagMeaning(es);
  }

  /** Which lanes a start expects: the microphone in the modes Mic and MicAndSystem, system
      audio in System and MicAndSystem. */
  lemma {:induction false} StartExpects(es: seq<Event>, k: nat, lane: AudioLane)
    requires k < |es| && Shows(es[k].body, Start)
    requires forall i | k < i < |es| :: !Shows(es[i].body, Start) && !IsSample(es[i].body, lane)
    ensures LaneOf(SourceAfter(es), lane).expected <==>
            var mode := es[k].body.started.value.mode;
            mode == MicAndSystem || mode == (if lane == Microphone then Mic else System)
  {
    var n := |es| - 1;
    LaneStep(SourceAfter(es[..n]), es[n].body, lane);
    if k < n {
      StartExpects(es[..n], k, lane);
    } else {
      StartSets(SourceAfter(es[..n]), es[n].body, lane);
    }
  }

  lemma StartSets(s: SourceState, b: Body, lane: AudioLane)
    requires Shows(b, Start)
    ensures LaneOf(SourceStep(s, b), lane).expected <==>
            b.started.value.mode in (if lane == Microphone then {Mic, MicAndSystem} else {System, MicAndSystem})
  {
  }

  /** A system-audio failure after the last start, with no microphone level in between,
      fails the capture exactly when the start asked for system audio alone, or an earlier
      failure had done so already. */
  lemma {:induction false} SystemLaneFailure(es: seq<Event>, k: nat)
    requires k + 1 < |es| && Shows(es[k].body, Start)
    requires forall i | k < i < |es| - 1 :: !Shows(es[i].body, Start) && !IsSample(es[i].body, Microphone)
    requires Shows(es[|es| - 1].body, Fails(SystemAudio))
    ensures Derive(SourceAfter(es), Finals(es)).status == SourceStatus.Failed <==>
            es[k].body.started.value.mode == System || FailedSince(es[..|es| - 1])
  {
    var before := es[..|es| - 1];
    StatusHonesty(es);
    FailedStep(es);
    LaneMeaning(before, Microphone);
    StartExpects(before, k, Microphone);
  }

  // ---- The in-flight utterance -------------------------------------------------

  /** Row i ends any earlier utterance by this segment's speaker. */
  ghost predicate Clears(es: seq<Event>, i: int, segment: Segment)
    requires 0 <= i < |es|
  {
    var b := es[i].body;
    || (b.SegmentPartial? && b.partial.Good?)
    || (b.SegmentFinal? && b.final.Good? && b.final.value.speaker == segment.speaker)
    || b.SourceStopped?
    || FailsWhole(es, i)
  }

  ghost function ClearColumn(es: seq<Event>, segment: Segment): (c: seq<bool>)
    ensures |c| == |es|
    ensures forall i | 0 <= i < |es| :: c[i] == Clears(es, i, segment)
  {
    seq(|es|, i requires 0 <= i < |es| => Clears(es, i, segment))
  }

  function PartialColumn(es: seq<Event>, segment: Segment): (c: seq<bool>)
    ensures |c| == |es|
    ensures forall i | 0 <= i < |es| :: c[i] == (es[i].body == SegmentPartial(Good(segment)))
  {
    seq(|es|, i requires 0 <= i < |es| => es[i].body == SegmentPartial(Good(segment)))
  }

  lemma PartialColumnsStep(es: seq<Event>, segment: Segment)
    requires es != []
    ensures var n, init := |es| - 1, es[..|es| - 1];
            && ClearColumn(es, segment) == ClearColumn(init, segment) + [Clears(es, n, segment)]
            && PartialColumn(es, segment) == PartialColumn(init, segment)
                                             + [es[n].body == SegmentPartial(Good(segment))]
  {
    var n, init := |es| - 1, es[..|es| - 1];
    forall i | 0 <= i < n ensures Clears(es, i, segment) == Clears(init, i, segment) {
      assert es[..i] == init[..i];
    }
  }

  /** The partial shown is the last one, provided no later row clears it. A stop
      clears only what came before: a partial arriving after the stop is shown. */
  lemma {:induction false} PartialMeaning(es: seq<Event>, segment: Segment)
    ensures PartialAfter(es) == Some(segment) <==> SinceIn(PartialColumn(es, segment), ClearColumn(es, segment))
  {
    if es != [] {
      var n := |es| - 1;
      var init, b := es[..n], es[n].body;
      PartialMeaning(init, segment);
      LaneMeaning(init, Microphone);
      PartialColumnsStep(es, segment);
      SinceInStep(PartialColumn(init, segment), ClearColumn(init, segment),
                  b == SegmentPartial(Good(segment)), Clears(es, n, segment));
      PartialStepMeaning(PartialAfter(init), SourceAfter(init).mic.expected, b, segment);
    }
  }

  lemma PartialStepMeaning(before: Option<Segment>, micExpected: bool, b: Body, segment: Segment)
    ensures PartialStep(before, micExpected, b) == Some(segment) <==>
            || b == SegmentPartial(Good(segment))
            || (&& before == Some(segment)
                && !(b.SegmentPartial? && b.partial.Good?)
                && !(b.SegmentFinal? && b.final.Good? && b.final.value.speaker == segment.speaker)
                && !b.SourceStopped?
                && !(Shows(b, AnyFailure) && WholeFailure(b.failed.value, micExpected)))
  {
  }

  /** Nothing keeps a late partial out: one that arrives after the stop row is shown,
      while the source shows as stopped. */
  lemma {:induction false} PartialAfterStop(es: seq<Event>, meeting: Id, segment: Segment)
    ensures var after := es + [Event(meeting, SourceStopped)] + [Event(meeting, SegmentPartial(Good(segment)))];
            PartialAfter(after) == Some(segment) && SourceAfter(after).stopped
  {
    var stopped := es + [Event(meeting, SourceStopped)];
    var after := stopped + [Event(meeting, SegmentPartial(Good(segment)))];
    assert stopped[..|es|] == es;
    assert after[..|stopped|] == stopped;
  }
}
