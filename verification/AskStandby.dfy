/** The Ask Standby request: record which spans the operator's question was asked
    over, then answer it from exactly those. */
module AskStandby {
  import opened Domain
  import opened Replay
  import opened Store
  import opened Text
  import opened Redaction
  import opened ProposalContext
  import opened EvidenceSelection
  import opened ProposalAgent

  datatype Outcome = BadRequest | StoreError | Answered(decision: Decision)

  function AskRun(request: ProposalRequest, message: string): Run {
    Run(Some(message), request.spans, request.maxProposals, true, None)
  }

  function RequestRow(meeting: Id, request: ProposalRequest): Event {
    Event(meeting, RequestCreated(Good(request)))
  }

  /** A request's recorded spans select, in the agent's own window, exactly the segments
      the request recorded; with none recorded there is nothing to select. */
  lemma RequestSelects(id: Id, window: Window, maxProposals: nat, transcript: seq<Segment>)
    requires DistinctIds(transcript)
    ensures SelectFinal(transcript, BuildRequest(id, window, maxProposals, transcript).spans, AUTOMATIC_LIMIT)
            == SelectFinal(transcript, [], LimitOf(window))
  {
    assert transcript + [] == transcript;
    RoundTripExactly(transcript, [], LimitOf(window), AUTOMATIC_LIMIT);
  }

  ghost predicate AnswersFrom(d: Decision, spans: seq<Id>) {
    forall card, e | card in d.cards && e in card.body.evidence :: e.segmentId in spans
  }

  /** Every card a request yields cites only the spans the request recorded. */
  lemma {:induction false} AnswerCitesSpans(id: Id, window: Window, maxProposals: nat, transcript: seq<Segment>,
                                            meeting: Id, run: Run, reply: Reply, newId: nat -> Id,
                                            d: Decision)
    requires run.spans == BuildRequest(id, window, maxProposals, transcript).spans
    requires Decides(d, meeting, transcript, run, reply, newId)
    ensures AnswersFrom(d, run.spans)
  {
    var context := SelectFinal(transcript, run.spans, AUTOMATIC_LIMIT);
    ContextInTranscript(transcript, run.spans, AUTOMATIC_LIMIT);
    if run.spans == [] {
      assert FinalOnly(transcript) == [];
    }
    forall card, e | card in d.cards && e in card.body.evidence ensures e.segmentId in run.spans {
      var i :| 0 <= i < |d.cards| && d.cards[i] == card;
      assert FromContext(d.cards[i].body.evidence, context);
      var s :| s in context && Cite(s) == e;
    }
  }

  /** The request asks for one card and records the ids of the last eight final segments
      of the transcript, or of all of them, in order. */
  ghost predicate Records(request: ProposalRequest, id: Id, window: Window, transcript: seq<Segment>) {
    var limit := match window case Recent => 8 case Full => 0xFFFF_FFFF_FFFF_FFFF;
    var at := LastOf(Places(transcript, None), limit);
    && request.id == id && request.maxProposals == 1 && |request.spans| == |at|
    && forall i | 0 <= i < |at| :: request.spans[i] == transcript[at[i]].id
  }

  lemma BuildRecords(id: Id, window: Window, transcript: seq<Segment>)
    ensures Records(BuildRequest(id, window, 1, transcript), id, window, transcript)
  {
    SelectionIs(transcript, [], LimitOf(window));
  }

  /** The request row, then the agent's decision, on a store that takes one row at least. */
  method Answer(store: EventStore, meeting: Id, request: ProposalRequest, message: string,
                reply: Reply, newId: nat -> Id, writable: nat)
    returns (ok: bool, d: Decision)
    requires AllReadable(Of(store.events, meeting)) && writable > 0
    modifies store
    ensures Decides(d, meeting, Finals(Of(old(store.events), meeting)), AskRun(request, message), reply, newId)
    ensures store.events == old(store.events) + [RequestRow(meeting, request)]
                            + Cut(DecisionRows(meeting, d, true), writable - 1)
    ensures ok <==> |DecisionRows(meeting, d, true)| < writable
  {
    QuietRow(store.events, RequestRow(meeting, request), meeting);
    store.Append(meeting, RequestCreated(Good(request)));
    ok, d := RunProposalAgent(store, meeting, AskRun(request, message), reply, newId, writable - 1);
  }

  /** `create_proposal_request`: the store lock is held throughout, so the agent sees
      the transcript the request was built from. The store accepts `writable` rows.
      Every card answers from recorded spans only, and what is written is the request
      followed by the decision, as far as the store went. */
  method CreateProposalRequest(
    store: EventStore, meeting: Id, message: string, window: Window, maxProposals: Option<nat>,
    requestId: Id, reply: Reply, newId: nat -> Id, writable: nat)
    returns (outcome: Outcome, d: Decision, ghost request: ProposalRequest)
    modifies store
    ensures outcome == BadRequest <==> Stripped(message, SPACE) == "" || maxProposals.GetOr(1) > 1
    ensures outcome == BadRequest || !AllReadable(Of(old(store.events), meeting)) ==> store.events == old(store.events)
    ensures outcome != BadRequest && !AllReadable(Of(old(store.events), meeting)) ==> outcome == StoreError
    ensures outcome != BadRequest && AllReadable(Of(old(store.events), meeting)) && writable == 0 ==>
              outcome == StoreError && store.events == old(store.events)
    ensures outcome != BadRequest && AllReadable(Of(old(store.events), meeting)) && writable > 0 ==>
              var transcript := Finals(Of(old(store.events), meeting));
              && Records(request, requestId, window, transcript)
              && Decides(d, meeting, transcript, Run(Some(Stripped(message, SPACE)), request.spans, 1, true, None),
                         reply, newId)
              && AnswersFrom(d, request.spans)
              && store.events == old(store.events) + [Event(meeting, RequestCreated(Good(request)))]
                                 + Cut(DecisionRows(meeting, d, true), writable - 1)
              && outcome == if |DecisionRows(meeting, d, true)| < writable then Answered(d) else StoreError
  {
    d := Decision([], None);
    request := ProposalRequest(requestId, [], 1);
    if Stripped(message, SPACE) == "" {
      return BadRequest, d, request;
    }
    if maxProposals.GetOr(1) > 1 {
      return BadRequest, d, request;
    }
    ProjectsFinals(store.events, meeting);
    var projection := store.Projection(meeting);
    if projection.None? {
      return StoreError, d, request;
    }
    if writable == 0 {
      return StoreError, d, request;
    }
    var transcript := projection.value.transcript;
    var built := BuildRequest(requestId, window, maxProposals.GetOr(1), transcript);
    request := built;
    var text := Stripped(message, SPACE);
    var ok;
    ok, d := Answer(store, meeting, built, text, reply, newId, writable);
    AnswerCitesSpans(requestId, window, 1, transcript, meeting, AskRun(built, text), reply, newId, d);
    BuildRecords(requestId, window, transcript);
    outcome := if ok then Answered(d) else StoreError;
  }
}
