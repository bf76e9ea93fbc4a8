/** Capture supervision: what helper exit, stop and the boot sweep leave behind. */
module CaptureSupervision {
  import opened Domain
  import opened Replay
  import opened SourceMeaning
  import opened Store

  /** The row recorded when the helper ends with neither a stop nor a failure. */
  const HELPER_CRASHED := SourceFailed(Good(FailedInfo(LocalMac, None, Some("capture helper exited unexpectedly"))))

  /** The log after the helper's exit; a crash row that cannot be written is given up. */
  function HelperExitLog(log: seq<Event>, meeting: Id, writable: bool): seq<Event> {
    var s := SourceOf(Of(log, meeting));
    if s.Some? && s.value.started && !s.value.stopped && s.value.failure.None? && writable then
      log + [Event(meeting, SourceFailed(Good(FailedInfo(LocalMac, None, Some("capture helper exited unexpectedly")))))]
    else log
  }

  function StopLog(log: seq<Event>, meeting: Id, writable: bool): seq<Event> {
    if Live(log, meeting) && writable then log + [Event(meeting, SourceStopped)] else log
  }

  class Supervisor {
    const store: EventStore
    var captures: set<Id>

    constructor (store: EventStore)
      ensures this.store == store && captures == {}
    {
      this.store := store;
      captures := {};
    }

    /** The tail of the reader task, after the helper's output ends. Whether the crash
        row could be written is not looked at. */
    method HelperExited(meeting: Id, writable: bool)
      modifies this, store
      ensures store.events == HelperExitLog(old(store.events), meeting, writable)
      ensures captures == old(captures) - {meeting}
    {
      var projection := store.Projection(meeting);
      if projection.Some? {
        var source := projection.value.source;
        if source.started && !source.stopped && source.failure.None? && writable {
          store.Append(meeting, HELPER_CRASHED);
        }
      }
      captures := captures - {meeting};
    }

    /** Signal a running helper; without one, reconcile the ledger directly. It fails
        when the meeting does not decode or its stop row cannot be written. */
    method StopCapture(meeting: Id, writable: bool) returns (signalled: bool, ok: bool)
      modifies store
      ensures signalled <==> meeting in captures
      ensures store.events == if signalled then old(store.events) else StopLog(old(store.events), meeting, writable)
      ensures ok <==> signalled || (SourceOf(Of(old(store.events), meeting)).Some?
                                    && (Live(old(store.events), meeting) ==> writable))
    {
      signalled, ok := meeting in captures, true;
      if !signalled {
        var outcome := store.ReconcileStoppedIfOrphaned(meeting, writable);
        ok := outcome.Some?;
      }
    }

    /** Helper exit, then stop: the meeting ends live exactly when it was live, the stop
        row could not be written, and the exit left it live too; and if it decoded, it
        still does. */
    method ExitThenStop(meeting: Id, crashWritable: bool, stopWritable: bool) returns (ok: bool)
      modifies this, store
      ensures SourceOf(Of(old(store.events), meeting)).Some? ==> SourceOf(Of(store.events, meeting)).Some?
      ensures Live(store.events, meeting) <==>
              && Live(old(store.events), meeting) && !stopWritable
              && (Since(Of(old(store.events), meeting), AnyFailure) || !crashWritable)
      ensures Live(store.events, meeting) ==> !ok
    {
      HelperExited(meeting, crashWritable);
      label exited:
      var signalled;
      signalled, ok := StopCapture(meeting, stopWritable);
      HelperExitStatus(old(store.events), meeting, crashWritable);
      StopStatus(old@exited(store.events), meeting, stopWritable);
    }
  }

  lemma DeriveKeeps(s: SourceState, transcript: seq<Segment>)
    ensures var d := Derive(s, transcript);
            && (IsCapturing(d) <==> IsCapturing(s))
            && d.started == s.started && d.stopped == s.stopped && d.failure == s.failure
            && (s.started && s.stopped ==> d.status == s.status)
  {
  }

  lemma LiveRaw(es: seq<Event>)
    ensures LiveEvents(es) <==> AllReadable(es) && IsCapturing(SourceAfter(es))
  {
    DeriveKeeps(SourceAfter(es), Finals(es));
  }

  lemma AppendStep(log: seq<Event>, meeting: Id, b: Body)
    requires Readable(b)
    ensures SourceAfter(Of(log + [Event(meeting, b)], meeting)) == SourceStep(SourceAfter(Of(log, meeting)), b)
    ensures AllReadable(Of(log + [Event(meeting, b)], meeting)) <==> AllReadable(Of(log, meeting))
  {
    var es := Of(log, meeting);
    OfAppend(log, Event(meeting, b), meeting);
    assert (es + [Event(meeting, b)])[..|es|] == es;
    assert forall e | e in es :: e in es + [Event(meeting, b)];
  }

  /** Helper exit alone leaves the meeting live exactly when it was live and either a
      failure was on record since its last start, which can then only be a per-lane one,
      or the crash row could not be written: the exit check tests for any failure,
      liveness for a failed status. */
  lemma {:induction false} HelperExitStatus(log: seq<Event>, meeting: Id, writable: bool)
    ensures var after := HelperExitLog(log, meeting, writable);
            && (Live(after, meeting) <==> Live(log, meeting) && (Since(Of(log, meeting), AnyFailure) || !writable))
            && (AllReadable(Of(log, meeting)) <==> AllReadable(Of(after, meeting)))
  {
    LiveRaw(Of(log, meeting));
    FlagMeaning(Of(log, meeting));
    DeriveKeeps(SourceAfter(Of(log, meeting)), Finals(Of(log, meeting)));
    AppendStep(log, meeting, HELPER_CRASHED);
    LiveRaw(Of(HelperExitLog(log, meeting, writable), meeting));
  }

  lemma StopStatus(log: seq<Event>, meeting: Id, writable: bool)
    ensures var after := StopLog(log, meeting, writable);
            && (Live(after, meeting) <==> Live(log, meeting) && !writable)
            && (AllReadable(Of(log, meeting)) <==> AllReadable(Of(after, meeting)))
            && (Live(log, meeting) && writable ==>
                  SourceOf(Of(after, meeting)).Some? && SourceOf(Of(after, meeting)).value.status == Stopped)
  {
    LiveRaw(Of(log, meeting));
    AppendStep(log, meeting, SourceStopped);
    var after := Of(StopLog(log, meeting, writable), meeting);
    DeriveKeeps(SourceAfter(after), Finals(after));
    LiveRaw(after);
  }

  /** Both lanes start and the system lane fails: the source carries on. */
  lemma PerLaneFailure(s: SourceState)
    ensures var start := SourceStarted(Good(StartedInfo(LocalMac, MicAndSystem)));
            var failure := SourceFailed(Good(FailedInfo(LocalMac, Some(SystemAudio), None)));
            var t := SourceStep(SourceStep(s, start), failure);
            IsCapturing(t) && t.failure.Some?
  {
  }

  lemma TwoAppends(a: Event, b: Event)
    requires a.meeting == b.meeting && Readable(a.body) && Readable(b.body)
    ensures var es := Of([a] + [b], a.meeting);
            AllReadable(es) && SourceAfter(es) == SourceStep(SourceStep(NO_SOURCE, a.body), b.body)
  {
    assert [] + [a] == [a];
    AppendStep([], a.meeting, a.body);
    AppendStep([a], a.meeting, b.body);
  }

  /** A run that shows the first way: both lanes start, the system lane fails, the helper
      exits without a stop row, and the ledger still shows a live capture. */
  lemma {:induction false} PerLaneFailureStaysLive(meeting: Id)
    ensures var log := [Event(meeting, SourceStarted(Good(StartedInfo(LocalMac, MicAndSystem))))]
                       + [Event(meeting, SourceFailed(Good(FailedInfo(LocalMac, Some(SystemAudio), None))))];
            HelperExitLog(log, meeting, true) == log && Live(log, meeting)
  {
    var start := SourceStarted(Good(StartedInfo(LocalMac, MicAndSystem)));
    var failure := SourceFailed(Good(FailedInfo(LocalMac, Some(SystemAudio), None)));
    var log := [Event(meeting, start)] + [Event(meeting, failure)];
    TwoAppends(Event(meeting, start), Event(meeting, failure));
    PerLaneFailure(NO_SOURCE);
    LiveRaw(Of(log, meeting));
    DeriveKeeps(SourceAfter(Of(log, meeting)), Finals(Of(log, meeting)));
  }

  // ---- The boot sweep ------------------------------------------------------------

  function Swept(log: seq<Event>, meetings: seq<Id>, unwritable: set<Id>): seq<Event> {
    log + StopRows(Orphans(log, meetings, unwritable))
  }

  lemma {:induction false} UnlistedEmpty(log: seq<Event>, meeting: Id)
    requires forall e | e in log :: e.meeting != meeting
    ensures Of(log, meeting) == []
  {
    if log != [] {
      var init := log[..|log| - 1];
      assert forall e | e in init :: e in log;
      assert log[|log| - 1] in log;
      UnlistedEmpty(init, meeting);
    }
  }

  /** After the sweep a meeting is live only if its stop row could not be written.
      The meetings returned are exactly those that were live and now are stopped;
      every other meeting's log, malformed ones included, is untouched, so Failed
      never becomes Stopped. */
  lemma {:induction false} SweepMeaning(log: seq<Event>, meetings: seq<Id>, unwritable: set<Id>, m: Id)
    requires NoRepeats(meetings)
    requires forall e | e in log :: e.meeting in meetings
    ensures var returned, after := Orphans(log, meetings, unwritable), Swept(log, meetings, unwritable);
            && (Live(after, m) <==> Live(log, m) && m in unwritable)
            && (m in returned <==> Live(log, m) && m !in unwritable)
            && (m in returned ==> SourceOf(Of(after, m)).Some? && SourceOf(Of(after, m)).value.status == Stopped)
            && (m !in returned ==> Of(after, m) == Of(log, m))
            && (Project(log, m).None? ==> Of(after, m) == Of(log, m))
  {
    var returned := Orphans(log, meetings, unwritable);
    OrphansFacts(log, meetings, unwritable);
    OfStopRows(log, returned, m);
    if m !in meetings {
      UnlistedEmpty(log, m);
      LiveRaw([]);
    }
    var after := Swept(log, meetings, unwritable);
    if m in returned {
      StopStatus(log, m, true);
      OfAppend(log, Event(m, SourceStopped), m);
      assert Of(after, m) == Of(StopLog(log, m, true), m);
      assert !Live(after, m);
    } else {
      assert Of(after, m) == Of(log, m);
      assert Live(after, m) == Live(log, m);
    }
  }

  /** A second sweep that can write everywhere finds only what the first could not
      write; after a first sweep without write errors it returns nothing. */
  lemma {:induction false} SecondSweep(log: seq<Event>, meetings: seq<Id>, unwritable: set<Id>)
    requires NoRepeats(meetings)
    requires forall e | e in log :: e.meeting in meetings
    ensures forall m :: m in Orphans(Swept(log, meetings, unwritable), meetings, {}) <==>
                        Live(log, m) && m in unwritable
    ensures unwritable == {} ==> Orphans(Swept(log, meetings, unwritable), meetings, {}) == []
  {
    var after := Swept(log, meetings, unwritable);
    OrphansFacts(after, meetings, {});
    forall m
      ensures m in Orphans(after, meetings, {}) <==> Live(log, m) && m in unwritable
    {
      SweepMeaning(log, meetings, unwritable, m);
      if m !in meetings {
        UnlistedEmpty(log, m);
        LiveRaw([]);
      }
    }
    var again := Orphans(after, meetings, {});
    assert again != [] ==> again[0] in again;
  }
}
