/** The transcript as the UI shows it: a timeline, synthesised when the recorded times
    are unusable, grouped into speaker turns. */
module Turns {
  import opened Domain
  import opened Sequences
  import opened Text
  import opened Whitespace

  /** What the JavaScript `\s` class and `trim` treat as space. */
  const SPACE: set<char> := {
    '\t', '\n', '\U{0B}', '\U{0C}', '\r', ' ', '\U{A0}', '\U{1680}',
    '\U{2000}', '\U{2001}', '\U{2002}', '\U{2003}', '\U{2004}', '\U{2005}', '\U{2006}',
    '\U{2007}', '\U{2008}', '\U{2009}', '\U{200A}', '\U{2028}', '\U{2029}', '\U{202F}',
    '\U{205F}', '\U{3000}', '\U{FEFF}'}

  datatype Shown = Shown(segment: Segment, startMs: int, endMs: int)

  datatype Turn = Turn(id: Id, speaker: Option<string>, startMs: int, endMs: int, text: string, segments: seq<Shown>)

  function MaxInt(a: int, b: int): int { if a < b then b else a }

  /** White space by code: the ASCII controls 9 to 13, the space, and the Unicode spaces. */
  lemma SpaceIs(c: char)
    ensures c in SPACE <==>
            var code := c as int;
            || 9 <= code <= 13 || code in {0x20, 0xA0, 0x1680} || 0x2000 <= code <= 0x200A
            || code in {0x2028, 0x2029, 0x202F, 0x205F, 0x3000, 0xFEFF}
  {
    assert c == c as int as char;
  }

  // ---- The timeline -------------------------------------------------------------------

  function EstimateSpeechMs(text: string): int {
    var byWords := MaxInt(1800, |Split(text, SPACE)| * 360);
    if byWords < 8000 then byWords else 8000
  }

  function DurationMs(s: Segment): int {
    MaxInt(MaxInt(1500, s.endMs - s.startMs), EstimateSpeechMs(s.text))
  }

  /** A segment runs for the longest of a second and a half, its recorded length, and 360 ms
      a word kept between 1.8 and 8 seconds. */
  ghost predicate Lasts(s: Segment, duration: int) {
    var words := 360 * |Split(s.text, SPACE)|;
    var spoken := if words < 1800 then 1800 else if words > 8000 then 8000 else words;
    var recorded := if s.endMs - s.startMs > 1500 then s.endMs - s.startMs else 1500;
    duration == if spoken < recorded then recorded else spoken
  }

  lemma DurationLasts(s: Segment)
    ensures Lasts(s, DurationMs(s))
  {
  }

  predicate Monotonic(starts: seq<int>) {
    forall i | 0 < i < |starts| :: starts[i - 1] <= starts[i]
  }

  function Values(starts: seq<int>): set<int> {
    set s | s in starts
  }

  predicate NeedsSynthesis(starts: seq<int>) {
    |starts| >= 3
    && (|| (forall i | 0 <= i < |starts| :: starts[i] == 0)
        || !Monotonic(starts)
        || |Values(starts)| <= MaxInt(2, |starts| / 3))
  }

  function Starts(segments: seq<Segment>): (r: seq<int>)
    ensures |r| == |segments| && forall i | 0 <= i < |r| :: r[i] == segments[i].startMs
  {
    if segments == [] then [] else [segments[0].startMs] + Starts(segments[1..])
  }

  /** Every segment starts at zero. */
  ghost predicate AllAtZero(segments: seq<Segment>) {
    forall s | s in segments :: s.startMs == 0
  }

  /** Some segment starts before the one before it. */
  ghost predicate GoesBack(segments: seq<Segment>) {
    exists i | 0 < i < |segments| :: segments[i].startMs < segments[i - 1].startMs
  }

  lemma ZeroIs(segments: seq<Segment>)
    ensures AllAtZero(segments) <==> forall i | 0 <= i < |Starts(segments)| :: Starts(segments)[i] == 0
  {
    if AllAtZero(segments) {
      assert forall i | 0 <= i < |segments| :: segments[i] in segments;
    } else {
      var s :| s in segments && s.startMs != 0;
      var i :| 0 <= i < |segments| && segments[i] == s;
      assert Starts(segments)[i] != 0;
    }
  }

  lemma BackIs(segments: seq<Segment>)
    ensures GoesBack(segments) <==> !Monotonic(Starts(segments))
  {
    var starts := Starts(segments);
    if GoesBack(segments) {
      var i :| 0 < i < |segments| && segments[i].startMs < segments[i - 1].startMs;
      assert starts[i - 1] > starts[i];
    }
    if !Monotonic(starts) {
      var i :| 0 < i < |starts| && starts[i - 1] > starts[i];
      assert segments[i].startMs < segments[i - 1].startMs;
    }
  }

  lemma FewIs(distinct: nat, n: nat)
    ensures distinct <= MaxInt(2, n / 3) <==> distinct <= 2 || 3 * distinct <= n
  {
  }

  /** Recorded times are unusable when there are at least three segments and they all start
      at zero, some start before the one before, or there are no more than two different
      starts or than one for every three segments. */
  lemma NeedsSynthesisExactly(segments: seq<Segment>)
    ensures NeedsSynthesis(Starts(segments)) <==>
            var distinct := |set s | s in segments :: s.startMs|;
            && |segments| >= 3
            && (AllAtZero(segments) || GoesBack(segments) || distinct <= 2 || 3 * distinct <= |segments|)
  {
    ZeroIs(segments);
    BackIs(segments);
    SameValues(segments);
    FewIs(|set s | s in segments :: s.startMs|, |segments|);
  }

  lemma SameValues(segments: seq<Segment>)
    ensures |Values(Starts(segments))| == |set s | s in segments :: s.startMs|
  {
    var starts, distinct := Starts(segments), set s | s in segments :: s.startMs;
    forall v ensures v in Values(starts) <==> v in distinct {
      if v in Values(starts) {
        var i :| 0 <= i < |starts| && starts[i] == v;
        assert segments[i] in segments;
      }
      if v in distinct {
        var s :| s in segments && s.startMs == v;
        var i :| 0 <= i < |segments| && segments[i] == s;
        assert starts[i] == v;
      }
    }
    assert Values(starts) == distinct;
  }

  function ShownStarts(timeline: seq<Shown>): (r: seq<int>)
    ensures |r| == |timeline| && forall i | 0 <= i < |r| :: r[i] == timeline[i].startMs
  {
    if timeline == [] then [] else [timeline[0].startMs] + ShownStarts(timeline[1..])
  }

  ghost predicate IsRecorded(segments: seq<Segment>, timeline: seq<Shown>) {
    && |timeline| == |segments|
    && forall i | 0 <= i < |timeline| ::
         timeline[i] == Shown(segments[i], segments[i].startMs, MaxInt(segments[i].endMs, segments[i].startMs))
  }

  ghost predicate IsSynthesised(segments: seq<Segment>, timeline: seq<Shown>) {
    && |timeline| == |segments|
    && (timeline != [] ==> timeline[0].startMs == 0)
    && (forall i | 0 <= i < |timeline| :: timeline[i].segment == segments[i])
    && (forall i {:trigger timeline[i].startMs} | 0 <= i < |timeline| ::
          timeline[i].endMs == timeline[i].startMs + DurationMs(segments[i]))
    && (forall i {:trigger timeline[i].startMs} | 0 < i < |timeline| ::
          timeline[i].startMs == timeline[i - 1].endMs + 250)
  }

  /** Recorded times are kept when they are usable; otherwise each segment runs for its
      duration, a quarter of a second after the one before. */
  ghost predicate IsTimeline(segments: seq<Segment>, timeline: seq<Shown>) {
    if NeedsSynthesis(Starts(segments)) then IsSynthesised(segments, timeline) else IsRecorded(segments, timeline)
  }

  /** Where the next synthesised segment starts. */
  function Cursor(timeline: seq<Shown>): int {
    if timeline == [] then 0 else timeline[|timeline| - 1].endMs + 250
  }

  function Next(timeline: seq<Shown>, s: Segment): Shown {
    Shown(s, Cursor(timeline), Cursor(timeline) + DurationMs(s))
  }

  lemma SynthesiseNext(segments: seq<Segment>, timeline: seq<Shown>, s: Segment)
    requires IsSynthesised(segments, timeline)
    ensures IsSynthesised(segments + [s], timeline + [Next(timeline, s)])
    ensures Cursor(timeline + [Next(timeline, s)]) == Cursor(timeline) + DurationMs(s) + 250
  {
  }

  lemma SynthesiseAt(segments: seq<Segment>, i: nat, timeline: seq<Shown>)
    requires i < |segments| && IsSynthesised(segments[..i], timeline)
    ensures IsSynthesised(segments[..i + 1], timeline + [Next(timeline, segments[i])])
    ensures Cursor(timeline + [Next(timeline, segments[i])]) == Cursor(timeline) + DurationMs(segments[i]) + 250
  {
    PrefixNext(segments, i);
    SynthesiseNext(segments[..i], timeline, segments[i]);
  }

  method KeepRecorded(segments: seq<Segment>) returns (timeline: seq<Shown>)
    ensures IsRecorded(segments, timeline)
  {
    timeline := [];
    for i := 0 to |segments|
      invariant IsRecorded(segments[..i], timeline)
    {
      var s := segments[i];
      assert segments[..i + 1] == segments[..i] + [s];
      timeline := timeline + [Shown(s, s.startMs, MaxInt(s.endMs, s.startMs))];
    }
    assert segments[..|segments|] == segments;
  }

  method Synthesise(segments: seq<Segment>) returns (timeline: seq<Shown>)
    ensures IsSynthesised(segments, timeline)
  {
    timeline := [];
    var cursor := 0;
    for i := 0 to |segments|
      invariant IsSynthesised(segments[..i], timeline)
      invariant cursor == Cursor(timeline)
    {
      var s := segments[i];
      var duration := DurationMs(s);
      var shown := Shown(s, cursor, cursor + duration);
      assert shown == Next(timeline, s);
      SynthesiseAt(segments, i, timeline);
      timeline := timeline + [shown];
      cursor := cursor + duration + 250;
    }
    assert segments[..|segments|] == segments;
  }

  method BuildTranscriptTimeline(segments: seq<Segment>) returns (timeline: seq<Shown>)
    ensures IsTimeline(segments, timeline)
  {
    if !NeedsSynthesis(Starts(segments)) {
      timeline := KeepRecorded(segments);
    } else {
      timeline := Synthesise(segments);
    }
  }

  predicate Rising(starts: seq<int>) {
    forall i | 0 < i < |starts| :: starts[i - 1] < starts[i]
  }

  lemma {:induction false} LastIsGreatest(starts: seq<int>, i: nat)
    requires Rising(starts) && i < |starts|
    ensures starts[i] <= starts[|starts| - 1]
    decreases |starts| - i
  {
    if i + 1 < |starts| {
      LastIsGreatest(starts, i + 1);
    }
  }

  lemma ValuesExtend(init: seq<int>, last: int)
    ensures Values(init + [last]) == Values(init) + {last}
  {
  }

  lemma {:induction false} RisingIsDistinct(starts: seq<int>)
    requires Rising(starts)
    ensures |Values(starts)| == |starts|
  {
    if starts != [] {
      var init, last := starts[..|starts| - 1], starts[|starts| - 1];
      RisingIsDistinct(init);
      assert starts == init + [last];
      ValuesExtend(init, last);
      forall i | 0 <= i < |init| ensures init[i] < last {
        LastIsGreatest(init, i);
      }
    }
  }

  lemma RisingNeedsNoSynthesis(starts: seq<int>)
    requires Rising(starts)
    ensures !NeedsSynthesis(starts) && Monotonic(starts)
  {
    RisingIsDistinct(starts);
    assert |starts| >= 3 ==> starts[0] < starts[1];
  }

  lemma SynthesisedSteps(segments: seq<Segment>, timeline: seq<Shown>, i: nat)
    requires IsSynthesised(segments, timeline) && i < |timeline|
    ensures timeline[i].endMs >= timeline[i].startMs + 1500
    ensures i > 0 ==> timeline[i].startMs >= timeline[i - 1].startMs + 1750
  {
    assert timeline[i].endMs == timeline[i].startMs + DurationMs(segments[i]);
    if i > 0 {
      assert timeline[i - 1].endMs == timeline[i - 1].startMs + DurationMs(segments[i - 1]);
    }
  }

  lemma SynthesisedIsRising(segments: seq<Segment>, timeline: seq<Shown>)
    requires IsSynthesised(segments, timeline)
    ensures forall i | 0 < i < |timeline| :: timeline[i].startMs >= timeline[i - 1].startMs + 1750
    ensures forall i | 0 <= i < |timeline| :: timeline[i].startMs <= timeline[i].endMs
    ensures Rising(ShownStarts(timeline))
  {
    forall i | 0 <= i < |timeline|
      ensures timeline[i].startMs <= timeline[i].endMs
      ensures i > 0 ==> timeline[i].startMs >= timeline[i - 1].startMs + 1750
    {
      SynthesisedSteps(segments, timeline, i);
    }
  }

  /** A synthetic timeline starts at zero, each segment lasting what it should and the next
      starting a quarter of a second later. */
  lemma {:induction false} SynthesisedLasts(segments: seq<Segment>, timeline: seq<Shown>)
    requires IsTimeline(segments, timeline) && NeedsSynthesis(Starts(segments))
    ensures |timeline| == |segments| && timeline[0].startMs == 0
    ensures forall i | 0 <= i < |timeline| ::
              timeline[i].segment == segments[i] && Lasts(segments[i], timeline[i].endMs - timeline[i].startMs)
    ensures forall i | 0 < i < |timeline| :: timeline[i].startMs - timeline[i - 1].endMs == 250
  {
    forall i | 0 <= i < |timeline| ensures Lasts(segments[i], timeline[i].endMs - timeline[i].startMs) {
      DurationLasts(segments[i]);
      assert timeline[i].endMs == timeline[i].startMs + DurationMs(segments[i]);
    }
  }

  /** The shown timeline never needs synthesising again, whatever was recorded; a
      synthesised one is strictly increasing, with at least a second and a half to each
      segment; and the shown starts are in order unless exactly two segments were
      recorded out of order. */
  lemma {:induction false} TimelineIsSettled(segments: seq<Segment>, timeline: seq<Shown>)
    requires IsTimeline(segments, timeline)
    ensures !NeedsSynthesis(ShownStarts(timeline))
    ensures NeedsSynthesis(Starts(segments)) ==>
              forall i | 0 < i < |timeline| :: timeline[i].startMs >= timeline[i - 1].startMs + 1750
    ensures forall i | 0 <= i < |timeline| :: timeline[i].startMs <= timeline[i].endMs
    ensures Monotonic(ShownStarts(timeline)) <==> |segments| != 2 || Monotonic(Starts(segments))
  {
    if NeedsSynthesis(Starts(segments)) {
      SynthesisedIsRising(segments, timeline);
      RisingNeedsNoSynthesis(ShownStarts(timeline));
    } else {
      assert ShownStarts(timeline) == Starts(segments);
    }
  }

  // ---- Normalised text ----------------------------------------------------------------

  function Normalize(text: string): string {
    Stripped(Collapse(text, SPACE), SPACE)
  }

  /** Normalising in two goes is normalising once; in particular it is idempotent. */
  lemma NormalizeJoined(a: string, b: string)
    ensures Normalize(Normalize(a) + " " + b) == Normalize(a + " " + b)
    ensures Normalize(Normalize(a)) == Normalize(a)
  {
    var words := Split(a, SPACE);
    NormalForm(a, SPACE);
    NormalForm(Normalize(a), SPACE);
    NormalForm(Normalize(a) + " " + b, SPACE);
    NormalForm(a + " " + b, SPACE);
    SplitJoin(words, SPACE);
    SplitSpace(Normalize(a), b, SPACE);
    SplitSpace(a, b, SPACE);
  }

  // ---- Lengths in UTF-16 units, as JavaScript counts them --------------------------------

  function Width(c: char): nat {
    if c as int >= 0x1_0000 then 2 else 1
  }

  function Units(s: string): nat {
    if s == [] then 0 else Width(s[0]) + Units(s[1..])
  }

  /** Characters beyond the basic plane take two units, all others one. */
  lemma UnitsOf(c: char)
    ensures Units([c]) == if c as int < 0x1_0000 then 1 else 2
  {
  }

  lemma {:induction false} UnitsAppend(a: string, b: string)
    ensures Units(a + b) == Units(a) + Units(b)
  {
    if a == [] {
      assert a + b == b;
    } else {
      UnitsAppend(a[1..], b);
      assert (a + b)[1..] == a[1..] + b;
    }
  }

  lemma {:induction false} CollapseShrinks(s: string)
    ensures Units(Collapse(s, SPACE)) <= Units(s)
    decreases |s|
  {
    if s != [] {
      var n := if s[0] in SPACE then SpaceLength(s, SPACE) else WordLength(s, SPACE);
      CollapseShrinks(s[n..]);
      assert s == s[..n] + s[n..];
      UnitsAppend(s[..n], s[n..]);
      UnitsAppend(if s[0] in SPACE then " " else s[..n], Collapse(s[n..], SPACE));
      assert Units(s[..n]) == Width(s[0]) + Units(s[..n][1..]);
    }
  }

  lemma {:induction false} StripShrinks(s: string)
    ensures Units(Stripped(s, SPACE)) <= Units(s)
    decreases |s|
  {
    if s != [] {
      StripShrinks(s[1..]);
      StripShrinks(s[..|s| - 1]);
      assert s == s[..|s| - 1] + s[|s| - 1..];
      UnitsAppend(s[..|s| - 1], s[|s| - 1..]);
    }
  }

  lemma NormalizeShrinks(text: string)
    ensures Units(Normalize(text)) <= Units(text)
  {
    CollapseShrinks(text);
    StripShrinks(Collapse(text, SPACE));
  }

  // ---- Turns --------------------------------------------------------------------------

  predicate Digits(s: string) {
    s != [] && forall c | c in s :: '0' <= c <= '9'
  }

  /** The digits of `remote_7` or `Speaker-7`, letters in either case. */
  function GenericNumber(speaker: string): Option<string> {
    if |speaker| > 7 && StartsWithLower(speaker, "remote") && speaker[6] in {'_', '-'} && Digits(speaker[7..])
    then Some(speaker[7..])
    else if |speaker| > 8 && StartsWithLower(speaker, "speaker") && speaker[7] in {'_', '-'} && Digits(speaker[8..])
    then Some(speaker[8..])
    else None
  }

  function SpeakerLabel(speaker: Option<string>): string {
    if speaker.None? || speaker.value == "" then "Unknown"
    else if speaker.value == "me" then "Me"
    else if speaker.value == "system_audio" then "Call audio"
    else match GenericNumber(speaker.value)
         case Some(n) => "Speaker " + n
         case None => speaker.value
  }

  /** Nobody is shown as unknown, the two lanes by name, and anyone else as they are, except
      the generic labels below. */
  lemma LabelIs(speaker: Option<string>)
    ensures speaker.None? || speaker == Some("") ==> SpeakerLabel(speaker) == "Unknown"
    ensures speaker == Some("me") ==> SpeakerLabel(speaker) == "Me"
    ensures speaker == Some("system_audio") ==> SpeakerLabel(speaker) == "Call audio"
    ensures speaker.Some? && speaker.value !in {"", "me", "system_audio"} ==>
              SpeakerLabel(speaker) == match GenericNumber(speaker.value)
                                       case Some(n) => "Speaker " + n
                                       case None => speaker.value
  {
  }

  /** A generic label is the word remote or speaker, in any case, a dash or an underscore, and
      digits to the end; its number is those digits. */
  predicate Generic(speaker: string, lower: string, upper: string)
    requires |lower| == |upper|
  {
    && |speaker| > |lower| + 1
    && (forall i | 0 <= i < |lower| :: speaker[i] == lower[i] || speaker[i] == upper[i])
    && (speaker[|lower|] == '_' || speaker[|lower|] == '-')
    && forall i | |lower| < i < |speaker| :: 48 <= speaker[i] as int <= 57
  }

  lemma DigitsAre(speaker: string, n: nat)
    requires n < |speaker|
    ensures Digits(speaker[n..]) <==> forall i | n <= i < |speaker| :: 48 <= speaker[i] as int <= 57
  {
    if Digits(speaker[n..]) {
      forall i | n <= i < |speaker| ensures 48 <= speaker[i] as int <= 57 {
        assert speaker[n..][i - n] in speaker[n..];
      }
    }
  }

  lemma PrefixIs(speaker: string, lower: string, upper: string)
    requires |lower| == |upper|
    requires forall i | 0 <= i < |lower| :: 'a' <= lower[i] <= 'z' && upper[i] as int == lower[i] as int - 32
    ensures StartsWithLower(speaker, lower) <==>
            |lower| <= |speaker| && forall i | 0 <= i < |lower| :: speaker[i] == lower[i] || speaker[i] == upper[i]
  {
    if |lower| <= |speaker| {
      forall i | 0 <= i < |lower|
        ensures Lower(speaker[i]) == lower[i] <==> speaker[i] == lower[i] || speaker[i] == upper[i] {
      }
    }
  }

  lemma GenericNumberIs(speaker: string)
    ensures GenericNumber(speaker) ==
            if Generic(speaker, "remote", "REMOTE") then Some(speaker[7..])
            else if Generic(speaker, "speaker", "SPEAKER") then Some(speaker[8..])
            else None
  {
    PrefixIs(speaker, "remote", "REMOTE");
    PrefixIs(speaker, "speaker", "SPEAKER");
    if |speaker| > 7 {
      DigitsAre(speaker, 7);
    }
    if |speaker| > 8 {
      DigitsAre(speaker, 8);
    }
  }

  const MAX_GAP_MS := 8000
  const MAX_SEGMENTS := 6
  const MAX_UNITS := 560

  predicate ShouldMerge(turn: Turn, s: Shown) {
    && SpeakerLabel(turn.speaker) == SpeakerLabel(s.segment.speaker)
    && s.startMs - turn.endMs <= MAX_GAP_MS
    && |turn.segments| < MAX_SEGMENTS
    && Units(turn.text) + Units(s.segment.text) < MAX_UNITS
  }

  function SegmentToTurn(s: Shown): Turn {
    Turn(s.segment.id, s.segment.speaker, s.startMs, s.endMs, Normalize(s.segment.text), [s])
  }

  function Merge(turn: Turn, s: Shown): Turn {
    turn.(segments := turn.segments + [s], endMs := MaxInt(turn.endMs, s.endMs),
          text := Normalize(turn.text + " " + s.segment.text))
  }

  // What a turn is, from its segments alone.

  function LatestEnd(group: seq<Shown>): int
    requires group != []
  {
    if |group| == 1 then group[0].endMs else MaxInt(LatestEnd(group[..|group| - 1]), group[|group| - 1].endMs)
  }

  function JoinedText(group: seq<Shown>): string
    requires group != []
  {
    if |group| == 1 then group[0].segment.text
    else JoinedText(group[..|group| - 1]) + " " + group[|group| - 1].segment.text
  }

  /** The turn of a group: identity, speaker and start from its first segment, the latest
      end, and the normal form of its texts joined. */
  function TurnOf(group: seq<Shown>): Turn
    requires group != []
  {
    Turn(group[0].segment.id, group[0].segment.speaker, group[0].startMs, LatestEnd(group),
         Normalize(JoinedText(group)), group)
  }

  lemma {:induction false} LatestEndIs(group: seq<Shown>)
    requires group != []
    ensures forall s | s in group :: s.endMs <= LatestEnd(group)
    ensures exists s | s in group :: s.endMs == LatestEnd(group)
  {
    if |group| > 1 {
      var init, last := group[..|group| - 1], group[|group| - 1];
      LatestEndIs(init);
      assert group == init + [last];
      var longest :| longest in init && longest.endMs == LatestEnd(init);
      assert longest in group && last in group;
    } else {
      assert group[0] in group;
    }
  }

  lemma MergeIsTurnOf(group: seq<Shown>, s: Shown)
    requires group != []
    ensures Merge(TurnOf(group), s) == TurnOf(group + [s])
  {
    assert (group + [s])[..|group|] == group;
    NormalizeJoined(JoinedText(group), s.segment.text);
  }

  /** Each segment of the group was close enough to join those before it. */
  ghost predicate Grown(group: seq<Shown>) {
    forall k | 0 < k < |group| :: ShouldMerge(TurnOf(group[..k]), group[k])
  }

  ghost predicate Proper(turn: Turn) {
    turn.segments != [] && turn == TurnOf(turn.segments) && Grown(turn.segments)
  }

  function AllSegments(turns: seq<Turn>): seq<Shown> {
    if turns == [] then [] else AllSegments(turns[..|turns| - 1]) + turns[|turns| - 1].segments
  }

  ghost predicate AllProper(turns: seq<Turn>) {
    forall i | 0 <= i < |turns| :: Proper(turns[i])
  }

  ghost predicate Unmergeable(turns: seq<Turn>)
    requires AllProper(turns)
  {
    forall i | 0 < i < |turns| :: !ShouldMerge(turns[i - 1], turns[i].segments[0])
  }

  /** The turns partition the timeline, each is what its segments make it, and no two
      neighbours could still merge. */
  ghost predicate AreTurns(timeline: seq<Shown>, turns: seq<Turn>) {
    AllSegments(turns) == timeline && AllProper(turns) && Unmergeable(turns)
  }

  lemma GrowOne(group: seq<Shown>, s: Shown)
    requires group != [] && Grown(group) && ShouldMerge(TurnOf(group), s)
    ensures Grown(group + [s])
  {
    var more := group + [s];
    forall k | 0 < k < |more| ensures ShouldMerge(TurnOf(more[..k]), more[k]) {
      if k < |group| {
        assert more[..k] == group[..k];
      } else {
        assert more[..k] == group;
      }
    }
  }

  lemma MergeLast(timeline: seq<Shown>, turns: seq<Turn>, s: Shown)
    requires AreTurns(timeline, turns) && turns != [] && ShouldMerge(turns[|turns| - 1], s)
    ensures AreTurns(timeline + [s], turns[|turns| - 1 := Merge(turns[|turns| - 1], s)])
  {
    var last := turns[|turns| - 1];
    var after := turns[|turns| - 1 := Merge(last, s)];
    MergeIsTurnOf(last.segments, s);
    GrowOne(last.segments, s);
    assert after[..|after| - 1] == turns[..|turns| - 1];
  }

  lemma SingleIsProper(s: Shown)
    ensures Proper(SegmentToTurn(s))
  {
  }

  lemma AllSegmentsAppend(turns: seq<Turn>, turn: Turn)
    ensures AllSegments(turns + [turn]) == AllSegments(turns) + turn.segments
  {
    assert (turns + [turn])[..|turns|] == turns;
  }

  lemma StartNew(timeline: seq<Shown>, turns: seq<Turn>, s: Shown)
    requires AreTurns(timeline, turns) && (turns != [] ==> !ShouldMerge(turns[|turns| - 1], s))
    ensures AreTurns(timeline + [s], turns + [SegmentToTurn(s)])
  {
    var started := SegmentToTurn(s);
    SingleIsProper(s);
    AllSegmentsAppend(turns, started);
    ExtendProper(turns, started);
  }

  lemma ExtendProper(turns: seq<Turn>, turn: Turn)
    requires AllProper(turns) && Unmergeable(turns) && Proper(turn)
    requires turns != [] ==> !ShouldMerge(turns[|turns| - 1], turn.segments[0])
    ensures AllProper(turns + [turn]) && Unmergeable(turns + [turn])
  {
    var after := turns + [turn];
    forall i | 0 < i < |after| ensures !ShouldMerge(after[i - 1], after[i].segments[0]) {
      if i < |turns| {
        assert !ShouldMerge(turns[i - 1], turns[i].segments[0]);
      }
    }
  }

  /** The timeline's next segment joins the last turn, or starts one. */
  function Longer(turns: seq<Turn>, s: Shown): seq<Turn> {
    if turns != [] && ShouldMerge(turns[|turns| - 1], s)
    then turns[|turns| - 1 := Merge(turns[|turns| - 1], s)]
    else turns + [SegmentToTurn(s)]
  }

  lemma LongerAreTurns(timeline: seq<Shown>, turns: seq<Turn>, s: Shown)
    requires AreTurns(timeline, turns)
    ensures AreTurns(timeline + [s], Longer(turns, s))
  {
    if turns != [] && ShouldMerge(turns[|turns| - 1], s) {
      MergeLast(timeline, turns, s);
    } else {
      StartNew(timeline, turns, s);
    }
  }

  method BuildTranscriptTurns(timeline: seq<Shown>) returns (turns: seq<Turn>)
    ensures AreTurns(timeline, turns)
  {
    turns := [];
    for i := 0 to |timeline|
      invariant AreTurns(timeline[..i], turns)
    {
      var s := timeline[i];
      PrefixNext(timeline, i);
      LongerAreTurns(timeline[..i], turns, s);
      if turns != [] && ShouldMerge(turns[|turns| - 1], s) {
        turns := turns[|turns| - 1 := Merge(turns[|turns| - 1], s)];
      } else {
        turns := turns + [SegmentToTurn(s)];
      }
    }
    assert timeline[..|timeline|] == timeline;
  }

  lemma MergedLength(turn: Turn, s: Shown)
    requires ShouldMerge(turn, s)
    ensures Units(Merge(turn, s).text) <= MAX_UNITS
  {
    NormalizeShrinks(turn.text + " " + s.segment.text);
    UnitsAppend(turn.text + " ", s.segment.text);
    UnitsAppend(turn.text, " ");
    assert Units(" ") == 1;
  }

  lemma JoinedTurn(group: seq<Shown>, k: nat)
    requires 0 < k < |group| && Grown(group)
    ensures SpeakerLabel(group[k].segment.speaker) == SpeakerLabel(group[0].segment.speaker)
    ensures group[k].startMs - LatestEnd(group[..k]) <= MAX_GAP_MS && k < MAX_SEGMENTS
    ensures ShouldMerge(TurnOf(group[..k]), group[k])
  {
    assert ShouldMerge(TurnOf(group[..k]), group[k]);
  }

  lemma LastIsMerged(group: seq<Shown>)
    requires |group| > 1
    ensures TurnOf(group) == Merge(TurnOf(group[..|group| - 1]), group[|group| - 1])
  {
    SplitLast(group);
    MergeIsTurnOf(group[..|group| - 1], group[|group| - 1]);
  }

  /** The non-space characters of a group's segments, one segment after the other. */
  function Said(group: seq<Shown>): string {
    if group == [] then ""
    else Said(group[..|group| - 1]) + Letters(group[|group| - 1].segment.text, SPACE)
  }

  lemma {:induction false} JoinedKeepsLetters(group: seq<Shown>)
    requires group != []
    ensures Letters(JoinedText(group), SPACE) == Said(group)
  {
    var init, text := group[..|group| - 1], group[|group| - 1].segment.text;
    if |group| == 1 {
      assert init == [];
    } else {
      JoinedKeepsLetters(init);
      LettersAppend(JoinedText(init) + " ", text, SPACE);
      LettersAppend(JoinedText(init), " ", SPACE);
    }
  }

  /** What every turn keeps: one speaker label, at most six segments, no pause of more
      than eight seconds before any of them, everything said and nothing else, and at
      most 560 characters once merged. */
  lemma ProperTurns(turn: Turn)
    requires Proper(turn)
    ensures 1 <= |turn.segments| <= 6
    ensures forall k | 0 <= k < |turn.segments| ::
              SpeakerLabel(turn.segments[k].segment.speaker) == SpeakerLabel(turn.speaker)
    ensures forall k | 0 < k < |turn.segments| ::
              turn.segments[k].startMs - LatestEnd(turn.segments[..k]) <= 8000
    ensures var first := turn.segments[0];
            turn.id == first.segment.id && turn.speaker == first.segment.speaker && turn.startMs == first.startMs
    ensures turn.text == Normalize(JoinedText(turn.segments))
    ensures Letters(turn.text, SPACE) == Said(turn.segments)
    ensures |turn.segments| > 1 ==> Units(turn.text) <= 560
  {
    KeepsLetters(JoinedText(turn.segments), SPACE);
    JoinedKeepsLetters(turn.segments);
    var group := turn.segments;
    if |group| > 1 {
      JoinedTurn(group, |group| - 1);
      LastIsMerged(group);
      MergedLength(TurnOf(group[..|group| - 1]), group[|group| - 1]);
    }
    forall k | 0 < k < |group|
      ensures SpeakerLabel(group[k].segment.speaker) == SpeakerLabel(turn.speaker)
      ensures group[k].startMs - LatestEnd(group[..k]) <= MAX_GAP_MS
    {
      JoinedTurn(group, k);
    }
  }

  /** A turn ends when the last of its segments to end does. */
  lemma TurnEnds(turn: Turn)
    requires Proper(turn)
    ensures forall s | s in turn.segments :: s.endMs <= turn.endMs
    ensures exists s | s in turn.segments :: s.endMs == turn.endMs
  {
    LatestEndIs(turn.segments);
  }

  /** Why a turn ends where it does: its neighbour has another label, or starts more than
      eight seconds later, or the turn has six segments, or the two texts make 560
      characters. */
  lemma NeighboursApart(timeline: seq<Shown>, turns: seq<Turn>, i: nat)
    requires AreTurns(timeline, turns) && 0 < i < |turns|
    ensures turns[i].segments != []
    ensures var turn, next := turns[i - 1], turns[i].segments[0];
            || SpeakerLabel(turn.speaker) != SpeakerLabel(next.segment.speaker)
            || next.startMs > turn.endMs + 8000
            || |turn.segments| >= 6
            || Units(turn.text) + Units(next.segment.text) >= 560
  {
    assert Proper(turns[i]);
    assert !ShouldMerge(turns[i - 1], turns[i].segments[0]);
  }

  // ---- There is only one such grouping ---------------------------------------------------

  lemma TurnsHaveSegments(turns: seq<Turn>)
    requires turns != [] && forall i | 0 <= i < |turns| :: Proper(turns[i])
    ensures AllSegments(turns) != []
  {
    assert Proper(turns[|turns| - 1]);
  }

  /** The turns without the timeline's last segment. */
  function Shorter(turns: seq<Turn>): seq<Turn>
    requires turns != [] && turns[|turns| - 1].segments != []
  {
    var group := turns[|turns| - 1].segments;
    if |group| == 1 then turns[..|turns| - 1]
    else turns[|turns| - 1 := TurnOf(group[..|group| - 1])]
  }

  lemma ShorterByTurn(timeline: seq<Shown>, turns: seq<Turn>)
    requires AreTurns(timeline, turns) && turns != [] && |turns[|turns| - 1].segments| == 1
    ensures timeline != [] && AreTurns(timeline[..|timeline| - 1], turns[..|turns| - 1])
  {
    var rest := AllSegments(turns[..|turns| - 1]);
    assert timeline == rest + turns[|turns| - 1].segments;
    assert timeline[..|timeline| - 1] == rest;
  }

  lemma GrownPrefix(group: seq<Shown>)
    requires |group| > 1 && Grown(group)
    ensures Grown(group[..|group| - 1])
  {
    var init := group[..|group| - 1];
    forall k | 0 < k < |init| ensures ShouldMerge(TurnOf(init[..k]), init[k]) {
      assert init[..k] == group[..k];
    }
  }

  lemma ShorterPartition(rest: seq<Shown>, group: seq<Shown>)
    requires group != []
    ensures (rest + group)[..|rest + group| - 1] == rest + group[..|group| - 1]
  {
  }

  lemma ShorterInTurn(timeline: seq<Shown>, turns: seq<Turn>)
    requires AreTurns(timeline, turns) && turns != [] && |turns[|turns| - 1].segments| > 1
    ensures timeline != [] && AreTurns(timeline[..|timeline| - 1], Shorter(turns))
  {
    var group, shorter := turns[|turns| - 1].segments, Shorter(turns);
    assert Proper(turns[|turns| - 1]);
    GrownPrefix(group);
    ShorterPartition(AllSegments(turns[..|turns| - 1]), group);
    assert shorter[..|turns| - 1] == turns[..|turns| - 1];
    assert shorter[|turns| - 1].segments[0] == group[0];
  }

  lemma ShorterAreTurns(timeline: seq<Shown>, turns: seq<Turn>)
    requires AreTurns(timeline, turns) && turns != []
    ensures Proper(turns[|turns| - 1]) && timeline != [] && AreTurns(timeline[..|timeline| - 1], Shorter(turns))
  {
    assert Proper(turns[|turns| - 1]);
    if |turns[|turns| - 1].segments| == 1 {
      ShorterByTurn(timeline, turns);
    } else {
      ShorterInTurn(timeline, turns);
    }
  }

  lemma LongerByTurn(timeline: seq<Shown>, turns: seq<Turn>)
    requires AreTurns(timeline, turns) && turns != [] && |turns[|turns| - 1].segments| == 1
    ensures timeline != [] && turns == Longer(Shorter(turns), timeline[|timeline| - 1])
  {
    var last := turns[|turns| - 1];
    assert Proper(last);
    assert last.segments == [timeline[|timeline| - 1]];
    assert turns == turns[..|turns| - 1] + [last];
  }

  lemma LongerMerges(init: seq<Turn>, turn: Turn, s: Shown)
    requires ShouldMerge(turn, s)
    ensures Longer(init + [turn], s) == init + [Merge(turn, s)]
  {
  }

  lemma ShorterUnmerges(init: seq<Turn>, last: Turn)
    requires |last.segments| > 1
    ensures Shorter(init + [last]) == init + [TurnOf(last.segments[..|last.segments| - 1])]
  {
  }

  lemma LongerInTurn(timeline: seq<Shown>, turns: seq<Turn>)
    requires AreTurns(timeline, turns) && turns != [] && |turns[|turns| - 1].segments| > 1
    ensures timeline != [] && turns == Longer(Shorter(turns), timeline[|timeline| - 1])
  {
    var init, last := turns[..|turns| - 1], turns[|turns| - 1];
    var group := last.segments;
    assert Proper(last);
    JoinedTurn(group, |group| - 1);
    LastIsMerged(group);
    assert timeline[|timeline| - 1] == group[|group| - 1];
    SplitLast(turns);
    ShorterUnmerges(init, last);
    LongerMerges(init, TurnOf(group[..|group| - 1]), group[|group| - 1]);
  }

  lemma LongerUndoes(timeline: seq<Shown>, turns: seq<Turn>)
    requires AreTurns(timeline, turns) && turns != [] && turns[|turns| - 1].segments != []
    ensures timeline != [] && turns == Longer(Shorter(turns), timeline[|timeline| - 1])
  {
    if |turns[|turns| - 1].segments| == 1 {
      LongerByTurn(timeline, turns);
    } else {
      LongerInTurn(timeline, turns);
    }
  }

  /** A timeline has exactly one grouping into proper turns that cannot merge further. */
  lemma {:induction false} TurnsAreUnique(timeline: seq<Shown>, a: seq<Turn>, b: seq<Turn>)
    requires AreTurns(timeline, a) && AreTurns(timeline, b)
    ensures a == b
  {
    if timeline == [] {
      if a != [] {
        TurnsHaveSegments(a);
      }
      if b != [] {
        TurnsHaveSegments(b);
      }
    } else {
      ShorterAreTurns(timeline, a);
      ShorterAreTurns(timeline, b);
      TurnsAreUnique(timeline[..|timeline| - 1], Shorter(a), Shorter(b));
      LongerUndoes(timeline, a);
      LongerUndoes(timeline, b);
    }
  }
}
