/** One capture lane of the audio helper: a real-time callback that copies into a ring
    of preallocated buffers, any number of callbacks of other sources that copy to the
    heap, a drop-oldest stream, and one consumer. The callbacks, the consumer and the
    stop task interleave between any two actions. */
module CaptureLane {
  import opened Domain

  const SLOTS: nat := 96
  const STREAM_CAP: nat := 64

  type Frames = seq<real>

  /** What the stream carries is a reference: to a ring slot, or to a heap copy. The
      ticket is history: which ring copy the reference was made by. */
  datatype Handle = Slot(index: nat, ticket: nat) | Heap(frames: Frames)

  datatype Producer =
    | Idle
    | Holding(buffer: Handle)  // copied, not yet counted
    | Counted(buffer: Handle)  // counted as received, not yet yielded
    | Overflowed               // the yield displaced a buffer, not yet counted

  datatype Consumer = Waiting | Processing(buffer: Handle) | Done

  datatype State = State(
    slots: seq<Frames>,
    queue: seq<Handle>,
    finished: bool,
    received: nat,
    dropped: nat,
    reported: nat,
    producer: Producer,
    consumer: Consumer,
    pending: nat,          // other callbacks that have counted their buffer, not yet yielded it
    displaced: nat,        // buffers other callbacks displaced and have not yet counted
    copied: seq<Frames>,   // history: what each ring copy stored
    reports: seq<nat>,     // history: the drop counts emitted
    consumed: nat,         // history: buffers taken by the consumer
    refused: nat,          // history: buffers yielded after the end of input
    clean: bool,           // history: no callback was under way when input was finished
    stragglers: nat)       // history: displaced buffers uncounted at the last report

  datatype Step =
    | CopyToSlot(frames: Frames)
    | CopyToHeap(frames: Frames)
    | CountReceived
    | Yield
    | CountDropped
    | OtherReceived
    | OtherYield(frames: Frames)
    | OtherDropped
    | Take
    | Report
    | FinishBuffer
    | FinishInput
    | EndOfStream

  function EmptySlots(n: nat): (slots: seq<Frames>)
    ensures |slots| == n
  {
    if n == 0 then [] else EmptySlots(n - 1) + [[]]
  }

  const INITIAL: State :=
    State(EmptySlots(SLOTS), [], false, 0, 0, 0, Idle, Waiting, 0, 0, [], [], 0, 0, false, 0)

  predicate Enabled(s: State, step: Step) {
    match step
    case CopyToSlot(_) => s.producer == Idle && |s.slots| == SLOTS
    case CopyToHeap(_) => s.producer == Idle
    case CountReceived => s.producer.Holding?
    case Yield => s.producer.Counted?
    case CountDropped => s.producer == Overflowed
    case OtherReceived => true
    case OtherYield(_) => s.pending > 0
    case OtherDropped => s.displaced > 0
    case Take => s.consumer == Waiting && s.queue != []
    case Report => s.consumer.Processing?
    case FinishBuffer => s.consumer.Processing?
    case FinishInput => !s.finished
    case EndOfStream => s.consumer == Waiting && s.finished && s.queue == []
  }

  /** No callback is under way. */
  predicate Quiet(s: State) {
    s.producer == Idle && s.pending == 0 && s.displaced == 0
  }

  /** Buffers displaced and not yet counted. */
  function Uncounted(s: State): nat {
    (if s.producer == Overflowed then 1 else 0) + s.displaced
  }

  /** `reportDropsIfAny`: emit the cumulative count if it has grown. */
  function Reported(s: State): State {
    if s.dropped > s.reported then s.(reported := s.dropped, reports := s.reports + [s.dropped]) else s
  }

  function Do(s: State, step: Step): State
    requires Enabled(s, step)
  {
    match step
    case CopyToSlot(frames) =>
      var i := |s.copied| % SLOTS;
      s.(slots := s.slots[i := frames], copied := s.copied + [frames], producer := Holding(Slot(i, |s.copied|)))
    case CopyToHeap(frames) => s.(producer := Holding(Heap(frames)))
    case CountReceived => s.(received := s.received + 1, producer := Counted(s.producer.buffer))
    case Yield =>
      if s.finished then s.(refused := s.refused + 1, producer := Idle)
      else if |s.queue| < STREAM_CAP then s.(queue := s.queue + [s.producer.buffer], producer := Idle)
      else s.(queue := s.queue[1..] + [s.producer.buffer], producer := Overflowed)
    case CountDropped => s.(dropped := s.dropped + 1, producer := Idle)
    case OtherReceived => s.(received := s.received + 1, pending := s.pending + 1)
    case OtherYield(frames) =>
      if s.finished then s.(refused := s.refused + 1, pending := s.pending - 1)
      else if |s.queue| < STREAM_CAP then s.(queue := s.queue + [Heap(frames)], pending := s.pending - 1)
      else s.(queue := s.queue[1..] + [Heap(frames)], pending := s.pending - 1, displaced := s.displaced + 1)
    case OtherDropped => s.(dropped := s.dropped + 1, displaced := s.displaced - 1)
    case Take => s.(queue := s.queue[1..], consumed := s.consumed + 1, consumer := Processing(s.queue[0]))
    case Report => Reported(s)
    case FinishBuffer => s.(consumer := Waiting)
    case FinishInput => s.(finished := true, clean := Quiet(s))
    case EndOfStream => Reported(s).(consumer := Done, stragglers := Uncounted(s))
  }

  ghost predicate Feasible(steps: seq<Step>)
    decreases |steps|, 0
  {
    steps == []
    || (Feasible(steps[..|steps| - 1]) && Enabled(After(steps[..|steps| - 1]), steps[|steps| - 1]))
  }

  ghost function After(steps: seq<Step>): State
    requires Feasible(steps)
    decreases |steps|, 1
  {
    if steps == [] then INITIAL else Do(After(steps[..|steps| - 1]), steps[|steps| - 1])
  }

  lemma Extend(steps: seq<Step>, step: Step)
    requires Feasible(steps) && Enabled(After(steps), step)
    ensures Feasible(steps + [step]) && After(steps + [step]) == Do(After(steps), step)
  {
    assert (steps + [step])[..|steps|] == steps;
  }

  // ---- The ring -----------------------------------------------------------------------

  /** A ring copy has been made whose buffer is not yet in the stream. */
  function InHand(s: State): nat {
    if (s.producer.Holding? || s.producer.Counted?) && s.producer.buffer.Slot? then 1 else 0
  }

  /** A reference made by a ring copy no more than `age` copies ago. */
  predicate Recent(h: Handle, copies: nat, age: nat) {
    h.Slot? ==> h.ticket < copies <= h.ticket + age && h.index == h.ticket % SLOTS
  }

  predicate RingInv(s: State) {
    && |s.slots| == SLOTS && |s.queue| <= STREAM_CAP
    && (forall t: nat | t < |s.copied| <= t + SLOTS :: s.slots[t % SLOTS] == s.copied[t])
    // a ring copy made after a queued one is queued behind it, in hand, or was refused
    && (forall p | 0 <= p < |s.queue| :: Recent(s.queue[p], |s.copied|, |s.queue| - p + InHand(s) + s.refused))
    && ((s.producer.Holding? || s.producer.Counted?) ==> Recent(s.producer.buffer, |s.copied|, 1))
    && (s.consumer.Processing? && s.consumer.buffer.Slot? ==>
          s.consumer.buffer.ticket < |s.copied| && s.consumer.buffer.index == s.consumer.buffer.ticket % SLOTS)
  }

  /** Tickets that share a slot are whole laps apart. */
  lemma SameSlot(a: nat, b: nat)
    requires a < b < a + SLOTS
    ensures a % SLOTS != b % SLOTS
  {
    var laps := b / SLOTS - a / SLOTS;
    assert b - a == laps * SLOTS + (b % SLOTS - a % SLOTS);
  }

  lemma RingCopy(s: State, frames: Frames)
    requires RingInv(s) && Enabled(s, CopyToSlot(frames))
    ensures RingInv(Do(s, CopyToSlot(frames)))
  {
    var r := Do(s, CopyToSlot(frames));
    forall t: nat | t < |r.copied| <= t + SLOTS ensures r.slots[t % SLOTS] == r.copied[t] {
      if t < |s.copied| {
        SameSlot(t, |s.copied|);
      }
    }
    forall p | 0 <= p < |r.queue| ensures Recent(r.queue[p], |r.copied|, |r.queue| - p + InHand(r) + r.refused) {
      assert Recent(s.queue[p], |s.copied|, |s.queue| - p + InHand(s) + s.refused);
    }
  }

  lemma RingYield(s: State)
    requires RingInv(s) && Enabled(s, Yield)
    ensures RingInv(Do(s, Yield))
  {
    var r := Do(s, Yield);
    forall p | 0 <= p < |r.queue| ensures Recent(r.queue[p], |r.copied|, |r.queue| - p + InHand(r) + r.refused) {
      var shift := if s.finished || |s.queue| < STREAM_CAP then 0 else 1;
      if p + shift < |s.queue| {
        assert r.queue[p] == s.queue[p + shift];
        assert Recent(s.queue[p + shift], |s.copied|, |s.queue| - (p + shift) + InHand(s) + s.refused);
      }
    }
  }

  lemma RingOtherYield(s: State, frames: Frames)
    requires RingInv(s) && Enabled(s, OtherYield(frames))
    ensures RingInv(Do(s, OtherYield(frames)))
  {
    var r := Do(s, OtherYield(frames));
    forall p | 0 <= p < |r.queue| ensures Recent(r.queue[p], |r.copied|, |r.queue| - p + InHand(r) + r.refused) {
      var shift := if s.finished || |s.queue| < STREAM_CAP then 0 else 1;
      if p + shift < |s.queue| {
        assert r.queue[p] == s.queue[p + shift];
        assert Recent(s.queue[p + shift], |s.copied|, |s.queue| - (p + shift) + InHand(s) + s.refused);
      }
    }
  }

  lemma RingTake(s: State)
    requires RingInv(s) && Enabled(s, Take)
    ensures RingInv(Do(s, Take))
  {
    var r := Do(s, Take);
    assert Recent(s.queue[0], |s.copied|, |s.queue| + InHand(s) + s.refused);
    forall p | 0 <= p < |r.queue| ensures Recent(r.queue[p], |r.copied|, |r.queue| - p + InHand(r) + r.refused) {
      assert Recent(s.queue[p + 1], |s.copied|, |s.queue| - (p + 1) + InHand(s) + s.refused);
    }
  }

  lemma RingStep(s: State, step: Step)
    requires RingInv(s) && Enabled(s, step)
    ensures RingInv(Do(s, step))
  {
    match step {
      case CopyToSlot(frames) => RingCopy(s, frames);
      case Yield => RingYield(s);
      case OtherYield(frames) => RingOtherYield(s, frames);
      case Take => RingTake(s);
      case _ =>
    }
  }

  lemma {:induction false} RingAlways(steps: seq<Step>)
    requires Feasible(steps)
    ensures RingInv(After(steps))
  {
    if steps != [] {
      RingAlways(steps[..|steps| - 1]);
      RingStep(After(steps[..|steps| - 1]), steps[|steps| - 1]);
    }
  }

  /** What a reference reads now. */
  function Contents(s: State, h: Handle): Frames
    requires h.Slot? ==> h.index < |s.slots|
  {
    if h.Slot? then s.slots[h.index] else h.frames
  }

  /** Every buffer in the stream still holds what was copied into it. */
  ghost predicate QueueIntact(s: State) {
    forall h | h in s.queue && h.Slot? ::
      h.ticket < |s.copied| && h.index < |s.slots| && Contents(s, h) == s.copied[h.ticket]
  }

  /** Ring safety, over every interleaving: as long as fewer than 32 callbacks ran after
      the end of input, every buffer in the stream still holds what was copied into it,
      and the slot that the next copy overwrites is not in the stream. The stop task
      stops the microphone tap first, so of its callbacks at most the one then under way
      runs later. */
  lemma {:induction false} QueuedBuffersIntact(steps: seq<Step>)
    requires Feasible(steps) && After(steps).refused < 32
    ensures var s := After(steps);
            && |s.queue| <= STREAM_CAP && QueueIntact(s)
            && forall h | h in s.queue && h.Slot? && s.producer == Idle :: h.index != |s.copied| % SLOTS
  {
    RingAlways(steps);
    var s := After(steps);
    forall h | h in s.queue && h.Slot?
      ensures h.ticket < |s.copied| && h.index < |s.slots| && Contents(s, h) == s.copied[h.ticket]
      ensures s.producer == Idle ==> h.index != |s.copied| % SLOTS
    {
      var p :| 0 <= p < |s.queue| && s.queue[p] == h;
      assert Recent(s.queue[p], |s.copied|, |s.queue| - p + InHand(s) + s.refused);
      if s.producer == Idle {
        SameSlot(h.ticket, |s.copied|);
      }
    }
  }

  /** The last ticket of a slot among those issued. */
  lemma LastLap(ticket: nat, copies: nat) returns (later: nat)
    requires ticket < copies
    ensures ticket <= later < copies <= later + SLOTS && later % SLOTS == ticket % SLOTS
  {
    later := ticket;
    while later + SLOTS < copies
      invariant ticket <= later < copies && later % SLOTS == ticket % SLOTS
    {
      later := later + SLOTS;
    }
  }

  /** When the consumer's buffer is overwritten: exactly once the ring has come a whole
      lap past it. From then on the slot holds a later copy. */
  lemma {:induction false} TakenBufferIntact(steps: seq<Step>)
    requires Feasible(steps)
    requires After(steps).consumer.Processing? && After(steps).consumer.buffer.Slot?
    ensures var s := After(steps);
            var h := s.consumer.buffer;
            && h.ticket < |s.copied| && h.index < |s.slots|
            && (|s.copied| <= h.ticket + SLOTS ==> Contents(s, h) == s.copied[h.ticket])
            && (|s.copied| > h.ticket + SLOTS ==>
                  exists later: nat :: h.ticket < later < |s.copied| && later % SLOTS == h.index
                                       && Contents(s, h) == s.copied[later])
  {
    RingAlways(steps);
    var s := After(steps);
    var h := s.consumer.buffer;
    if |s.copied| > h.ticket + SLOTS {
      var later := LastLap(h.ticket, |s.copied|);
      assert s.slots[later % SLOTS] == s.copied[later];
    }
  }

  /** How many more ring copies a buffer survives once the consumer takes it: 32, or one
      fewer when a copy is already in hand. */
  lemma {:induction false} TakenBufferSlack(steps: seq<Step>, more: seq<Step>)
    requires Feasible(steps) && Enabled(After(steps), Take) && After(steps).queue[0].Slot?
    requires Feasible(steps + [Take] + more)
    requires |After(steps + [Take] + more).copied|
             <= |After(steps).copied| + 32 - InHand(After(steps)) - After(steps).refused
    ensures var h := After(steps).queue[0];
            && h.index < SLOTS && h.ticket < |After(steps).copied|
            && |After(steps + [Take] + more).slots| == SLOTS
            && Contents(After(steps + [Take] + more), h) == After(steps).copied[h.ticket]
  {
    RingAlways(steps);
    RingAlways(steps + [Take] + more);
    var s := After(steps);
    assert Recent(s.queue[0], |s.copied|, |s.queue| + InHand(s) + s.refused);
    Extend(steps, Take);
    CopiesKept(steps + [Take], more);
  }

  lemma OneCopyKept(s: State, step: Step)
    requires Enabled(s, step)
    ensures s.copied <= Do(s, step).copied
  {
  }

  lemma {:induction false} CopiesKept(steps: seq<Step>, more: seq<Step>)
    requires Feasible(steps + more)
    ensures Feasible(steps) && After(steps).copied <= After(steps + more).copied
  {
    if more == [] {
      assert steps + more == steps;
    } else {
      var init, last := more[..|more| - 1], more[|more| - 1];
      assert (steps + more)[..|steps + more| - 1] == steps + init;
      CopiesKept(steps, init);
      OneCopyKept(After(steps + init), last);
    }
  }

  /** One whole callback that displaces nothing. */
  function Callback(s: State, frames: Frames): State
    requires |s.slots| == SLOTS
  {
    var i := |s.copied| % SLOTS;
    s.(slots := s.slots[i := frames], copied := s.copied + [frames], received := s.received + 1,
       queue := if s.finished then s.queue else s.queue + [Slot(i, |s.copied|)],
       refused := s.refused + (if s.finished then 1 else 0))
  }

  lemma OneCallback(before: seq<Step>, frames: Frames) returns (steps: seq<Step>)
    requires Feasible(before) && After(before).producer == Idle && |After(before).slots| == SLOTS
    requires After(before).finished || |After(before).queue| < STREAM_CAP
    ensures Feasible(steps) && After(steps) == Callback(After(before), frames)
  {
    Extend(before, CopyToSlot(frames));
    var copied := before + [CopyToSlot(frames)];
    Extend(copied, CountReceived);
    Extend(copied + [CountReceived], Yield);
    steps := copied + [CountReceived] + [Yield];
  }

  /** n callbacks have filled the stream with n ring slots. */
  predicate FilledBy(s: State, n: nat, frames: Frames) {
    && |s.queue| == |s.copied| == n && s.producer == Idle && s.consumer == Waiting && !s.finished
    && s.refused == 0 && |s.slots| == SLOTS
    && (n > 0 ==> s.queue[0] == Slot(0, 0) && s.copied[0] == frames)
  }

  lemma FillOne(s: State, n: nat, frames: Frames)
    requires FilledBy(s, n, frames)
    ensures FilledBy(Callback(s, frames), n + 1, frames)
  {
    if n > 0 {
      assert Callback(s, frames).queue[0] == s.queue[0] && Callback(s, frames).copied[0] == s.copied[0];
    }
  }

  lemma {:induction false} FillRun(n: nat, frames: Frames) returns (steps: seq<Step>)
    requires n <= STREAM_CAP
    ensures Feasible(steps) && FilledBy(After(steps), n, frames)
  {
    if n == 0 {
      steps := [];
    } else {
      var before := FillRun(n - 1, frames);
      FillOne(After(before), n - 1, frames);
      steps := OneCallback(before, frames);
    }
  }

  /** A full stream, the end of input, and n callbacks since. */
  predicate LateBy(s: State, n: nat, frames: Frames, late: Frames) {
    && |s.queue| == STREAM_CAP && s.queue[0] == Slot(0, 0) && |s.slots| == SLOTS
    && s.producer == Idle && s.finished && s.refused == n
    && |s.copied| == STREAM_CAP + n && s.copied[0] == frames
    && forall t | STREAM_CAP <= t < |s.copied| :: s.copied[t] == late
  }

  lemma LateOne(s: State, n: nat, frames: Frames, late: Frames)
    requires LateBy(s, n, frames, late)
    ensures LateBy(Callback(s, late), n + 1, frames, late)
  {
    var t := Callback(s, late);
    assert t.copied[0] == s.copied[0];
    assert forall i | STREAM_CAP <= i < |s.copied| :: t.copied[i] == s.copied[i];
  }

  lemma {:induction false} LateRun(n: nat, frames: Frames, late: Frames) returns (steps: seq<Step>)
    ensures Feasible(steps) && LateBy(After(steps), n, frames, late)
  {
    if n == 0 {
      var before := FillRun(STREAM_CAP, frames);
      Extend(before, FinishInput);
      steps := before + [FinishInput];
    } else {
      var before := LateRun(n - 1, frames, late);
      LateOne(After(before), n - 1, frames, late);
      steps := OneCallback(before, late);
    }
  }

  /** With a full stream and 32 callbacks after the end of input, one more copy
      overwrites a buffer the consumer has yet to read. */
  lemma {:induction false} LateCallbacksOverwrite() returns (steps: seq<Step>)
    ensures Feasible(steps) && After(steps).refused == 32 && !QueueIntact(After(steps))
  {
    var before := LateRun(32, [], [0.0]);
    Extend(before, CopyToSlot([0.0]));
    steps := before + [CopyToSlot([0.0])];
    RingAlways(steps);
    var s := After(steps);
    assert |s.copied| == SLOTS + 1;
    assert s.slots[SLOTS % SLOTS] == s.copied[SLOTS];
    assert Contents(s, s.queue[0]) == [0.0] && s.copied[0] == [];
    assert s.queue[0] in s.queue;
  }

  /** The exact bound: every run with at most `late` callbacks after the end of input
      keeps the stream intact if and only if `late` is below 32. */
  lemma {:induction false} StreamSafeExactly(late: nat)
    ensures (forall steps | Feasible(steps) && After(steps).refused <= late :: QueueIntact(After(steps))) <==> late < 32
  {
    if late < 32 {
      forall steps | Feasible(steps) && After(steps).refused <= late ensures QueueIntact(After(steps)) {
        QueuedBuffersIntact(steps);
      }
    } else {
      var steps := LateCallbacksOverwrite();
    }
  }

  /** Between two callbacks, the input not finished. */
  predicate Between(s: State) {
    s.producer == Idle && !s.finished && |s.slots| == SLOTS
  }

  /** One whole callback, which displaces the oldest buffer if the stream is full. */
  lemma AnyCallback(before: seq<Step>, frames: Frames) returns (steps: seq<Step>)
    requires Feasible(before) && Between(After(before))
    ensures Feasible(steps) && before <= steps && Between(After(steps))
    ensures After(steps).copied == After(before).copied + [frames]
    ensures After(steps).consumer == After(before).consumer
  {
    Extend(before, CopyToSlot(frames));
    var copied := before + [CopyToSlot(frames)];
    Extend(copied, CountReceived);
    Extend(copied + [CountReceived], Yield);
    steps := copied + [CountReceived] + [Yield];
    if |After(before).queue| >= STREAM_CAP {
      Extend(steps, CountDropped);
      steps := steps + [CountDropped];
    }
  }

  /** n callbacks in a row, the consumer staying where it is. */
  lemma {:induction false} Callbacks(before: seq<Step>, n: nat, frames: Frames) returns (steps: seq<Step>)
    requires Feasible(before) && Between(After(before))
    ensures Feasible(steps) && before <= steps && Between(After(steps))
    ensures |After(steps).copied| == |After(before).copied| + n
    ensures After(steps).consumer == After(before).consumer
  {
    steps := before;
    if n > 0 {
      steps := Callbacks(before, n - 1, frames);
      steps := AnyCallback(steps, frames);
    }
  }

  /** The consumer takes the first buffer of a full stream, with a copy in hand or not,
      and the callback that held it goes on. */
  lemma TakeFirst(frames: Frames, held: bool) returns (steps: seq<Step>, run: seq<Step>)
    ensures Feasible(steps) && FirstIsDue(After(steps), frames, held)
    ensures Feasible(run) && steps + [Take] <= run && Between(After(run))
    ensures After(run).copied == After(steps).copied && After(run).consumer == Processing(Slot(0, 0))
  {
    steps := FillRun(STREAM_CAP, frames);
    if held {
      Extend(steps, CopyToSlot(frames));
      steps := steps + [CopyToSlot(frames)];
    }
    Extend(steps, Take);
    run := steps + [Take];
    if held {
      Extend(run, CountReceived);
      Extend(run + [CountReceived], Yield);
      run := run + [CountReceived] + [Yield];
    }
  }

  /** A full stream of ring copies, the first of them next to be taken. */
  predicate FirstIsDue(s: State, frames: Frames, held: bool) {
    && s.consumer == Waiting && s.queue != [] && s.queue[0] == Slot(0, 0) && s.refused == 0
    && InHand(s) == (if held then 1 else 0)
    && |s.copied| == STREAM_CAP + InHand(s) && s.copied[0] == frames
  }

  /** The slack is exact, with a copy in hand or not: one more ring copy than it allows,
      and the buffer the consumer is reading shows something else. */
  lemma {:induction false} SlackIsTight(frames: Frames, late: Frames, held: bool)
    returns (steps: seq<Step>, run: seq<Step>)
    requires frames != late
    ensures Feasible(steps) && FirstIsDue(After(steps), frames, held)
    ensures Feasible(run) && steps + [Take] <= run && After(run).consumer == Processing(Slot(0, 0))
    ensures |After(run).copied| == |After(steps).copied| + 33 - InHand(After(steps))
    ensures |After(run).slots| == SLOTS && Contents(After(run), Slot(0, 0)) == late
  {
    steps, run := TakeFirst(frames, held);
    run := Callbacks(run, 32 - InHand(After(steps)), frames);
    Extend(run, CopyToSlot(late));
    run := run + [CopyToSlot(late)];
  }

  // ---- The counters -------------------------------------------------------------------

  function InFlight(s: State): nat {
    (if s.producer.Counted? || s.producer == Overflowed then 1 else 0) + s.pending + s.displaced
  }

  predicate Rising(ns: seq<nat>) {
    forall i, j | 0 <= i < j < |ns| :: ns[i] < ns[j]
  }

  function Last(ns: seq<nat>): nat {
    if ns == [] then 0 else ns[|ns| - 1]
  }

  predicate CountInv(s: State) {
    && s.received == s.consumed + |s.queue| + s.dropped + s.refused + InFlight(s)
    && Rising(s.reports) && s.reported == Last(s.reports) && s.reported <= s.dropped
    && (s.reports != [] ==> s.reports[0] > 0)
    && (s.refused > 0 ==> s.finished)
    && (s.consumer == Done ==> s.finished && s.queue == []
                               && s.reported + s.stragglers == s.dropped + Uncounted(s))
    && (s.finished && s.clean ==> Uncounted(s) == 0 && s.stragglers == 0)
    && (s.stragglers > 0 ==> s.consumer == Done)
  }

  lemma CountReport(s: State)
    requires CountInv(s)
    ensures Rising(Reported(s).reports) && Reported(s).reported == Last(Reported(s).reports) == Reported(s).dropped
    ensures Reported(s).reports != [] ==> Reported(s).reports[0] > 0
  {
    assert forall i | 0 <= i < |s.reports| :: s.reports[i] <= s.reported;
  }

  lemma CountCallback(s: State, step: Step)
    requires CountInv(s) && Enabled(s, step)
    requires step.Yield? || step.OtherYield?
    ensures CountInv(Do(s, step))
  {
  }

  lemma CountDrop(s: State, step: Step)
    requires CountInv(s) && Enabled(s, step) && (step.CountDropped? || step.OtherDropped?)
    ensures CountInv(Do(s, step))
  {
  }

  lemma CountConsumer(s: State, step: Step)
    requires CountInv(s) && Enabled(s, step) && (step == Report || step == EndOfStream)
    ensures CountInv(Do(s, step))
  {
    CountReport(s);
  }

  lemma CountOther(s: State, step: Step)
    requires CountInv(s) && Enabled(s, step)
    requires !step.Yield? && !step.OtherYield? && !step.CountDropped? && !step.OtherDropped?
    requires step != Report && step != EndOfStream
    ensures CountInv(Do(s, step))
  {
  }

  lemma CountStep(s: State, step: Step)
    requires CountInv(s) && Enabled(s, step)
    ensures CountInv(Do(s, step))
  {
    if step.Yield? || step.OtherYield? {
      CountCallback(s, step);
    } else if step.CountDropped? || step.OtherDropped? {
      CountDrop(s, step);
    } else if step == Report || step == EndOfStream {
      CountConsumer(s, step);
    } else {
      CountOther(s, step);
    }
  }

  lemma {:induction false} CountAlways(steps: seq<Step>)
    requires Feasible(steps)
    ensures CountInv(After(steps))
  {
    if steps != [] {
      CountAlways(steps[..|steps| - 1]);
      CountStep(After(steps[..|steps| - 1]), steps[|steps| - 1]);
    }
  }

  /** Conservation, over every interleaving: each submitted buffer was consumed, is
      queued, was dropped and counted, came after the end of input, or is in flight;
      and the drop counts reported strictly increase, never past the true count. */
  lemma DropsConserved(steps: seq<Step>)
    requires Feasible(steps)
    ensures var s := After(steps);
            && s.received == s.consumed + |s.queue| + s.dropped + s.refused + InFlight(s)
            && Rising(s.reports) && Last(s.reports) <= s.dropped
  {
    CountAlways(steps);
  }

  /** Once the consumer is done the last report is the total number of drops, except
      exactly when a displaced buffer was still uncounted at that last report; and that
      cannot be when every source stopped before the input was finished, in which case
      what was received is what was consumed plus what was reported, plus what was
      turned away afterwards. */
  lemma LastReportIsTotal(steps: seq<Step>)
    requires Feasible(steps) && After(steps).consumer == Done
    ensures var s := After(steps);
            && (Last(s.reports) == s.dropped + Uncounted(s) <==> s.stragglers == 0)
            && (s.clean ==> s.stragglers == 0)
            && (s.clean ==> s.received == s.consumed + Last(s.reports) + s.refused + InFlight(s))
  {
    CountAlways(steps);
  }

  /** The consumer reads on until nothing is queued. */
  lemma {:induction false} ReadOut(before: seq<Step>) returns (steps: seq<Step>)
    requires Feasible(before) && After(before).consumer == Waiting && After(before).finished
    ensures Feasible(steps)
    ensures var s := After(before);
            After(steps) == s.(queue := [], consumed := s.consumed + |s.queue|)
    decreases |After(before).queue|
  {
    steps := before;
    if After(before).queue != [] {
      Extend(before, Take);
      Extend(before + [Take], FinishBuffer);
      steps := ReadOut(before + [Take] + [FinishBuffer]);
    }
  }

  /** A callback has displaced a buffer and not yet counted it when the input is finished. */
  lemma OverflowAtEnd() returns (steps: seq<Step>)
    ensures Feasible(steps)
    ensures After(steps).producer == Overflowed && After(steps).consumer == Waiting && After(steps).finished
  {
    var filled := FillRun(STREAM_CAP, []);
    Extend(filled, CopyToSlot([]));
    steps := filled + [CopyToSlot([])];
    Extend(steps, CountReceived);
    Extend(steps + [CountReceived], Yield);
    Extend(steps + [CountReceived] + [Yield], FinishInput);
    steps := steps + [CountReceived] + [Yield] + [FinishInput];
  }

  /** A run whose last report falls short: the consumer reads out the stream while the
      callback still has a displaced buffer to count. */
  lemma {:induction false} LastReportFallsShort() returns (steps: seq<Step>)
    ensures Feasible(steps) && After(steps).consumer == Done && After(steps).stragglers > 0
    ensures Last(After(steps).reports) < After(steps).dropped + Uncounted(After(steps))
  {
    var before := OverflowAtEnd();
    var read := ReadOut(before);
    Extend(read, EndOfStream);
    steps := read + [EndOfStream];
    CountAlways(steps);
  }
}
