/** The helper's buffer pool and capture lane as the objects they are: fields updated
    in place, one method per action another thread may come between. Each method is
    proved to take the matching step of the lane's state machine. */
module AudioHelper {
  import opened Domain
  import opened CaptureLane

  /** The preallocated ring: `copyInto` overwrites the next slot and hands out a
      reference to it. A slot shows the frames last copied into it. */
  class PcmBufferPool {
    const slots: array<Frames>
    const frameCapacity: nat
    const isFloat: bool
    var index: nat

    ghost predicate Valid()
      reads this
    {
      index < slots.Length
    }

    constructor (count: nat, frameCapacity: nat, isFloat: bool)
      requires count > 0
      ensures Valid() && fresh(slots) && index == 0
      ensures slots[..] == EmptySlots(count)
      ensures this.frameCapacity == frameCapacity && this.isFloat == isFloat
    {
      var empty: seq<Frames> := EmptySlots(count);
      slots := new Frames[count](i requires 0 <= i < |empty| => empty[i]);
      this.frameCapacity := frameCapacity;
      this.isFloat := isFloat;
      index := 0;
      new;
      assert slots[..] == empty;
    }

    method CopyInto(source: Frames, sourceIsFloat: bool) returns (r: Option<nat>)
      requires Valid()
      modifies this`index, slots
      ensures Valid()
      ensures r.Some? <==> |source| <= frameCapacity && sourceIsFloat && isFloat
      ensures r.Some? ==> r.value == old(index) && slots[..] == old(slots[..])[r.value := source]
      ensures r.None? ==> slots[..] == old(slots[..])
      ensures index == if |source| <= frameCapacity && sourceIsFloat then (old(index) + 1) % slots.Length
                       else old(index)
    {
      if |source| > frameCapacity || !sourceIsFloat {
        return None;
      }
      var destination := index;
      index := (index + 1) % slots.Length;
      if !isFloat {
        return None;
      }
      slots[destination] := source;
      r := Some(destination);
    }
  }

  class Lane {
    const pool: PcmBufferPool
    var queue: seq<Handle>
    var finished: bool
    var received: nat
    var dropped: nat
    var reported: nat
    var producer: Producer
    var consumer: Consumer
    var pending: nat
    var displaced: nat
    // history, which the helper does not keep
    var copied: seq<Frames>
    var reports: seq<nat>
    var consumed: nat
    var refused: nat
    var clean: bool
    var stragglers: nat

    /** A lane over a pool of floats whose ring position follows the copies made. */
    ghost predicate Valid()
      reads this, pool, pool.slots
    {
      && pool.Valid() && pool.slots.Length == SLOTS && pool.isFloat
      && pool.index == |copied| % SLOTS
    }

    ghost function View(): State
      reads this, pool.slots
    {
      State(pool.slots[..], queue, finished, received, dropped, reported, producer, consumer, pending, displaced,
            copied, reports, consumed, refused, clean, stragglers)
    }

    constructor (frameCapacity: nat)
      ensures Valid() && fresh(pool) && fresh(pool.slots) && View() == INITIAL
    {
      pool := new PcmBufferPool(SLOTS, frameCapacity, true);
      queue, finished, received, dropped, reported := [], false, 0, 0, 0;
      producer, consumer, pending, displaced := Idle, Waiting, 0, 0;
      copied, reports, consumed, refused, clean, stragglers := [], [], 0, 0, false, 0;
    }

    /** The tap callback: a ring slot if the buffer fits one, otherwise a heap copy,
        which may fail to allocate and loses the buffer. */
    method OnBuffer(source: Frames, sourceIsFloat: bool, allocates: bool)
      requires Valid() && producer == Idle
      modifies this`producer, this`copied, pool`index, pool.slots
      ensures Valid()
      ensures View() ==
              if |source| <= pool.frameCapacity && sourceIsFloat then Do(old(View()), CopyToSlot(source))
              else if allocates then Do(old(View()), CopyToHeap(source))
              else old(View())
    {
      var slot := pool.CopyInto(source, sourceIsFloat);
      if slot.Some? {
        producer := Holding(Slot(slot.value, |copied|));
        copied := copied + [source];
      } else if allocates {
        producer := Holding(Heap(source));
      }
    }

    method CountReceived()
      requires Valid() && producer.Holding?
      modifies this`received, this`producer
      ensures Valid() && View() == Do(old(View()), Step.CountReceived)
    {
      received := received + 1;
      producer := Counted(producer.buffer);
    }

    /** `continuation.yield` on a stream that keeps the newest 64. */
    method YieldBuffer()
      requires Valid() && producer.Counted?
      modifies this`queue, this`producer, this`refused
      ensures Valid() && View() == Do(old(View()), Yield)
    {
      if finished {
        refused := refused + 1;
        producer := Idle;
      } else if |queue| < STREAM_CAP {
        queue := queue + [producer.buffer];
        producer := Idle;
      } else {
        queue := queue[1..] + [producer.buffer];
        producer := Overflowed;
      }
    }

    method CountDropped()
      requires Valid() && producer == Overflowed
      modifies this`dropped, this`producer
      ensures Valid() && View() == Do(old(View()), Step.CountDropped)
    {
      dropped := dropped + 1;
      producer := Idle;
    }

    /** `submit`, when no other thread comes between. */
    method Submit()
      requires Valid() && producer.Holding?
      modifies this
      ensures Valid() && producer == Idle
      ensures var counted := Do(old(View()), Step.CountReceived);
              var yielded := Do(counted, Yield);
              View() == if yielded.producer == Overflowed then Do(yielded, Step.CountDropped) else yielded
    {
      CountReceived();
      YieldBuffer();
      if producer == Overflowed {
        CountDropped();
      }
    }

    /** The same three actions by a callback of another source, whose copies are on the
        heap: the process tap, or ScreenCaptureKit, even both at once. */
    method OtherReceived()
      requires Valid()
      modifies this`received, this`pending
      ensures Valid() && View() == Do(old(View()), Step.OtherReceived)
    {
      received := received + 1;
      pending := pending + 1;
    }

    method OtherYield(frames: Frames)
      requires Valid() && pending > 0
      modifies this`queue, this`pending, this`displaced, this`refused
      ensures Valid() && View() == Do(old(View()), Step.OtherYield(frames))
    {
      pending := pending - 1;
      if finished {
        refused := refused + 1;
      } else if |queue| < STREAM_CAP {
        queue := queue + [Heap(frames)];
      } else {
        queue := queue[1..] + [Heap(frames)];
        displaced := displaced + 1;
      }
    }

    method OtherDropped()
      requires Valid() && displaced > 0
      modifies this`dropped, this`displaced
      ensures Valid() && View() == Do(old(View()), Step.OtherDropped)
    {
      dropped := dropped + 1;
      displaced := displaced - 1;
    }

    method FinishInput()
      requires Valid() && !finished
      modifies this`finished, this`clean
      ensures Valid() && View() == Do(old(View()), Step.FinishInput)
    {
      finished := true;
      clean := producer == Idle && pending == 0 && displaced == 0;
    }

    method Take()
      requires Valid() && consumer == Waiting && queue != []
      modifies this`queue, this`consumed, this`consumer
      ensures Valid() && View() == Do(old(View()), Step.Take)
    {
      consumer := Processing(queue[0]);
      queue := queue[1..];
      consumed := consumed + 1;
    }

    /** Emit the cumulative drop count if it has grown since the last report. */
    method ReportDropsIfAny()
      requires Valid()
      modifies this`reported, this`reports
      ensures Valid() && View() == Reported(old(View()))
    {
      if dropped > reported {
        reported := dropped;
        reports := reports + [dropped];
      }
    }

    method FinishBuffer()
      requires Valid() && consumer.Processing?
      modifies this`consumer
      ensures Valid() && View() == Do(old(View()), Step.FinishBuffer)
    {
      consumer := Waiting;
    }

    /** What the consumer reads through a reference. */
    function Read(buffer: Handle): Frames
      requires Valid() && (buffer.Slot? ==> buffer.index < SLOTS)
      reads this, pool, pool.slots
    {
      match buffer
      case Heap(copy) => copy
      case Slot(i, _) => pool.slots[i]
    }

    /** One turn of the consumer's loop. `levelDue` says whether this buffer completes
        a level, and so a report. */
    method HearOne(levelDue: bool) returns (frames: Frames)
      requires Valid() && Draining(View()) && queue != []
      modifies this`queue, this`consumed, this`consumer, this`reported, this`reports
      ensures Valid() && Draining(View())
      ensures queue == old(queue)[1..] && consumed == old(consumed) + 1
      ensures WasCopied(frames, old(queue)[0], copied)
    {
      ghost var s := View();
      HeadIsIntact(s);
      frames := Read(queue[0]);
      assert WasCopied(frames, queue[0], copied);
      Take();
      if levelDue {
        ReportDropsIfAny();
      }
      FinishBuffer();
      ghost var taken := Do(s, Step.Take);
      assert View() == Do(if levelDue then Do(taken, Report) else taken, Step.FinishBuffer);
      DrainStep(s, levelDue);
    }

    method EndOfStream()
      requires Valid() && consumer == Waiting && finished && queue == []
      modifies this`reported, this`reports, this`consumer, this`stragglers
      ensures Valid() && View() == Do(old(View()), Step.EndOfStream)
    {
      ReportDropsIfAny();
      consumer := Done;
      stragglers := (if producer == Overflowed then 1 else 0) + displaced;
    }

    /** The consumer's loop from the end of input on, with the sources stopped: it reads
        every queued buffer, in order, as it was copied, and its last report is the
        number of buffers dropped. */
    method Drain(levelDue: seq<bool>) returns (heard: seq<Frames>)
      requires Valid() && Draining(View())
      modifies this`queue, this`consumed, this`consumer, this`reported, this`reports, this`stragglers
      ensures Valid() && consumer == Done && queue == []
      ensures |heard| == |old(queue)| && consumed == old(consumed) + |heard|
      ensures forall i | 0 <= i < |heard| :: WasCopied(heard[i], old(queue)[i], copied)
      ensures Last(reports) == dropped && received == consumed + dropped + refused
    {
      heard := [];
      ghost var all := queue;
      while queue != []
        invariant Valid() && Draining(View())
        invariant |heard| <= |all| && queue == all[|heard|..] && consumed == old(consumed) + |heard|
        invariant forall i | 0 <= i < |heard| :: WasCopied(heard[i], all[i], copied)
        decreases |queue|
      {
        assert queue[0] == all[|heard|];
        var frames := HearOne(|heard| < |levelDue| && levelDue[|heard|]);
        heard := heard + [frames];
      }
      EndAccounts(View());
      EndOfStream();
    }
  }

  /** The sources stopped, then the input was finished; the consumer is between buffers. */
  ghost predicate Draining(s: State) {
    && RingInv(s) && CountInv(s)
    && s.finished && s.clean && s.refused < 32 && s.consumer == Waiting && Quiet(s)
  }

  ghost predicate WasCopied(frames: Frames, buffer: Handle, copied: seq<Frames>) {
    match buffer
    case Heap(copy) => frames == copy
    case Slot(_, ticket) => ticket < |copied| && frames == copied[ticket]
  }

  lemma EndAccounts(s: State)
    requires Draining(s) && s.queue == []
    ensures var t := Do(s, Step.EndOfStream);
            Last(t.reports) == t.dropped && t.received == t.consumed + t.dropped + t.refused
  {
    CountStep(s, Step.EndOfStream);
  }

  lemma HeadIsIntact(s: State)
    requires Draining(s) && s.queue != []
    ensures s.queue[0].Slot? ==>
              s.queue[0].index < |s.slots| && WasCopied(Contents(s, s.queue[0]), s.queue[0], s.copied)
  {
    assert Recent(s.queue[0], |s.copied|, |s.queue| + InHand(s) + s.refused);
  }

  lemma DrainStep(s: State, levelDue: bool)
    requires Draining(s) && s.queue != []
    ensures var taken := Do(s, Step.Take);
            var after := if levelDue then Do(taken, Report) else taken;
            Draining(Do(after, FinishBuffer))
  {
    RingStep(s, Step.Take);
    CountStep(s, Step.Take);
    var taken := Do(s, Step.Take);
    if levelDue {
      RingStep(taken, Report);
      CountStep(taken, Report);
    }
    var after := if levelDue then Do(taken, Report) else taken;
    RingStep(after, FinishBuffer);
    CountStep(after, FinishBuffer);
  }
}
