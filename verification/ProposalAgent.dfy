/** The proposal agent: from a transcript snapshot and an untrusted model reply to
    recorded cards, and why recording them late is safe. */
module ProposalAgent {
  import opened Domain
  import opened KeyedList
  import opened Replay
  import opened Sequences
  import opened Store
  import opened Text
  import opened Redaction
  import opened ProposalContext
  import opened EvidenceSelection
  import Proposer

  datatype Decision = Decision(cards: seq<Proposal>, noProposal: Option<NoProposal>)

  datatype Reply = ProviderError(detail: string) | Answer(candidates: seq<Candidate>, noReason: Option<string>)

  datatype Run = Run(
    message: Option<string>,
    spans: seq<Id>,
    maxProposals: nat,
    recordNoProposal: bool,
    debounce: Option<nat>)

  predicate Blank(message: Option<string>) {
    Stripped(message.GetOr(""), SPACE) == ""
  }

  /** The candidates that are looked at: none without enough to go on or without a
      reply, otherwise the first one to three. */
  function Considered(context: seq<Segment>, run: Run, reply: Reply): seq<Candidate> {
    if (|context| < 2 && Blank(run.message)) || reply.ProviderError? then []
    else if |reply.candidates| <= ClampCards(run.maxProposals) then reply.candidates
    else reply.candidates[..ClampCards(run.maxProposals)]
  }

  ghost predicate CardFor(card: Proposal, candidate: Candidate, context: seq<Segment>, used: set<Id>, meeting: Id) {
    && card.body.meeting == meeting
    && card.body.title == Stripped(candidate.title, SPACE)
    && card.body.draftPrompt == Stripped(candidate.draftPrompt, SPACE)
    && card.body.confidence == candidate.confidence
    && card.body.status == Proposed
    && FromContext(card.body.evidence, context)
    && EvidenceIds(card.body.evidence) == FreshIds(Citations(candidate, context), used)
  }

  function NewCard(id: Id, meeting: Id, candidate: Candidate, evidence: seq<Evidence>): Proposal {
    Keyed(id, ProposalBody(meeting, Stripped(candidate.title, SPACE), Stripped(candidate.draftPrompt, SPACE),
                           evidence, candidate.confidence, Proposed))
  }

  /** The cards are those of the accepted among the first n candidates, in order,
      under newly generated ids. */
  ghost predicate CardsFor(
    cards: seq<Proposal>, candidates: seq<Candidate>, context: seq<Segment>, n: nat, meeting: Id, newId: nat -> Id)
    requires n <= |candidates|
  {
    var positions := Accepted(candidates, context, n);
    && |cards| == |positions|
    && (forall i | 0 <= i < |cards| :: cards[i].id == newId(i))
    && (forall i | 0 <= i < |cards| ::
          CardFor(cards[i], candidates[positions[i]], context, UsedBy(candidates, context, positions[i]), meeting))
  }

  lemma CardsForAccept(cards: seq<Proposal>, card: Proposal, candidates: seq<Candidate>, context: seq<Segment>,
                       k: nat, meeting: Id, newId: nat -> Id)
    requires k < |candidates| && CardsFor(cards, candidates, context, k, meeting, newId)
    requires Accepts(candidates[k], context, UsedBy(candidates, context, k)) && card.id == newId(|cards|)
    requires CardFor(card, candidates[k], context, UsedBy(candidates, context, k), meeting)
    ensures CardsFor(cards + [card], candidates, context, k + 1, meeting, newId)
  {
    var before, positions := Accepted(candidates, context, k), Accepted(candidates, context, k + 1);
    assert positions == before + [k];
    var after := cards + [card];
    forall i | 0 <= i < |after|
      ensures after[i].id == newId(i)
      ensures CardFor(after[i], candidates[positions[i]], context, UsedBy(candidates, context, positions[i]), meeting)
    {
      if i < |cards| {
        assert after[i] == cards[i] && positions[i] == before[i];
      }
    }
  }

  /** The ids marked as used are those of the evidence just accepted. */
  lemma UsedAccept(card: Proposal, candidates: seq<Candidate>, context: seq<Segment>, k: nat, meeting: Id)
    requires k < |candidates| && Accepts(candidates[k], context, UsedBy(candidates, context, k))
    requires CardFor(card, candidates[k], context, UsedBy(candidates, context, k), meeting)
    ensures UsedBy(candidates, context, k + 1)
            == UsedBy(candidates, context, k) + (set id | id in EvidenceIds(card.body.evidence))
  {
  }

  /** The greedy loop over the candidates considered. */
  method AcceptCandidates(meeting: Id, context: seq<Segment>, candidates: seq<Candidate>, newId: nat -> Id)
    returns (cards: seq<Proposal>)
    ensures CardsFor(cards, candidates, context, |candidates|, meeting, newId)
  {
    cards := [];
    var used: set<Id> := {};
    for k := 0 to |candidates|
      invariant CardsFor(cards, candidates, context, k, meeting, newId)
      invariant used == UsedBy(candidates, context, k)
    {
      var candidate := candidates[k];
      if candidate.confidence >= CONFIDENCE_FLOOR {
        var evidence := CandidateEvidence(candidate, context, used);
        CandidateStep(candidates, context, k, evidence);
        if evidence.Some? {
          var card := NewCard(newId(|cards|), meeting, candidate, evidence.value);
          CardsForAccept(cards, card, candidates, context, k, meeting, newId);
          UsedAccept(card, candidates, context, k, meeting);
          var ids := EvidenceIds(evidence.value);
          used := used + (set id | id in ids);
          cards := cards + [card];
        }
      }
    }
  }

  /** What becomes of a candidate depends only on it and those before it. */
  lemma {:induction false} AcceptedPrefix(candidates: seq<Candidate>, context: seq<Segment>, n: nat, k: nat)
    requires k <= n <= |candidates|
    ensures UsedBy(candidates[..n], context, k) == UsedBy(candidates, context, k)
    ensures Accepted(candidates[..n], context, k) == Accepted(candidates, context, k)
  {
    if k > 0 {
      AcceptedPrefix(candidates, context, n, k - 1);
    }
  }

  lemma CardsForPrefix(cards: seq<Proposal>, candidates: seq<Candidate>, context: seq<Segment>, n: nat, meeting: Id,
                       newId: nat -> Id)
    requires n <= |candidates| && CardsFor(cards, candidates[..n], context, n, meeting, newId)
    ensures CardsFor(cards, candidates, context, n, meeting, newId)
  {
    AcceptedPrefix(candidates, context, n, n);
    var positions := Accepted(candidates, context, n);
    forall i | 0 <= i < |cards| ensures UsedBy(candidates[..n], context, positions[i])
                                        == UsedBy(candidates, context, positions[i]) {
      AcceptedPrefix(candidates, context, n, positions[i]);
    }
  }

  /** There are two segments to go on, or a message that is more than spaces. */
  predicate EnoughToGoOn(context: seq<Segment>, message: Option<string>) {
    |context| >= 2 || (message.Some? && Stripped(message.value, SPACE) != "")
  }

  /** The cards are those of the first candidates of the reply, as many as asked for but
      one at least and three at most. */
  ghost predicate CardsOfFirst(d: Decision, meeting: Id, context: seq<Segment>, candidates: seq<Candidate>, asked: nat,
                               newId: nat -> Id)
  {
    var limit := if asked == 0 then 1 else if asked >= 3 then 3 else asked;
    var n := if |candidates| < limit then |candidates| else limit;
    CardsFor(d.cards, candidates, context, n, meeting, newId)
  }

  lemma ConsideredAreFirst(d: Decision, meeting: Id, context: seq<Segment>, run: Run, reply: Reply, newId: nat -> Id)
    requires reply.Answer? && EnoughToGoOn(context, run.message)
    requires var considered := Considered(context, run, reply);
             CardsFor(d.cards, considered, context, |considered|, meeting, newId)
    ensures CardsOfFirst(d, meeting, context, reply.candidates, run.maxProposals, newId)
  {
    if |reply.candidates| > ClampCards(run.maxProposals) {
      CardsForPrefix(d.cards, reply.candidates, context, ClampCards(run.maxProposals), meeting, newId);
    }
  }

  /** The reason given for having no card. */
  ghost predicate Explains(reason: string, context: seq<Segment>, message: Option<string>, reply: Reply) {
    if !EnoughToGoOn(context, message) then
      reason == if context == [] then "no_transcript_or_operator_context"
                else "insufficient_context_for_automatic_card"
    else match reply
      case ProviderError(detail) => OneLine(reason, "model_provider_error: " + detail)
      case Answer(_, given) => reason == if given.Some? then given.value else "model_returned_no_valid_proposals"
  }

  /** The text with each line break replaced by a space. */
  predicate OneLine(line: string, text: string) {
    |line| == |text| && forall i | 0 <= i < |text| :: line[i] == if text[i] == '\n' then ' ' else text[i]
  }

  lemma {:induction false} BreaksReplaced(text: string, from: nat)
    requires from <= |text|
    ensures OneLine(ReplaceFrom(text, "\n", " ", from), text[from..])
    decreases |text| - from
  {
    var m := NextMatch(text, "\n", from);
    forall i | from <= i < (if m.Some? then m.value else |text|) ensures text[i] != '\n' {
      if text[i] == '\n' {
        OccursIf(text, "\n", i);
      }
    }
    if m.Some? {
      BreaksReplaced(text, m.value + 1);
      OccursAt(text, "\n", m.value, 0);
      LineParts(text, from, m.value, ReplaceFrom(text, "\n", " ", m.value + 1));
    }
  }

  lemma LineParts(text: string, from: nat, at: nat, rest: string)
    requires from <= at < |text| && text[at] == '\n' && OneLine(rest, text[at + 1..])
    requires forall i | from <= i < at :: text[i] != '\n'
    ensures OneLine(text[from..at] + " " + rest, text[from..])
  {
    var line := text[from..at] + " " + rest;
    forall i | 0 <= i < |text[from..]|
      ensures line[i] == if text[from..][i] == '\n' then ' ' else text[from..][i]
    {
      assert i > at - from ==> text[from..][i] == text[at + 1..][i - (at + 1 - from)];
    }
  }

  /** One decision over a context. The model is consulted only with two segments or an
      operator message to go on. */
  method Propose(meeting: Id, context: seq<Segment>, run: Run, reply: Reply, newId: nat -> Id)
    returns (d: Decision)
    ensures var considered := Considered(context, run, reply);
            CardsFor(d.cards, considered, context, |considered|, meeting, newId)
    ensures if reply.Answer? && EnoughToGoOn(context, run.message) then
              CardsOfFirst(d, meeting, context, reply.candidates, run.maxProposals, newId)
            else d.cards == []
    ensures |d.cards| <= ClampCards(run.maxProposals) <= 3
    ensures d.noProposal.Some? <==> d.cards == []
    ensures d.noProposal.Some? ==>
              && d.noProposal.value.id == newId(0) && d.noProposal.value.spans == SpanIds(context)
              && Explains(d.noProposal.value.reason, context, run.message, reply)
  {
    if context == [] && Blank(run.message) {
      return Decision([], Some(NoProposal(newId(0), SpanIds(context), "no_transcript_or_operator_context")));
    }
    if |context| < 2 && Blank(run.message) {
      return Decision([], Some(NoProposal(newId(0), SpanIds(context), "insufficient_context_for_automatic_card")));
    }
    if reply.ProviderError? {
      var text := "model_provider_error: " + reply.detail;
      var reason := ReplaceFrom(text, "\n", " ", 0);
      BreaksReplaced(text, 0);
      assert text[0..] == text;
      return Decision([], Some(NoProposal(newId(0), SpanIds(context), reason)));
    }
    var cards := AcceptCandidates(meeting, context, Considered(context, run, reply), newId);
    d := Decision(cards, if cards == []
                         then Some(NoProposal(newId(0), SpanIds(context),
                                              reply.noReason.GetOr("model_returned_no_valid_proposals")))
                         else None);
    ConsideredAreFirst(d, meeting, context, run, reply, newId);
  }

  lemma CardsAreSound(cards: seq<Proposal>, candidates: seq<Candidate>, context: seq<Segment>, meeting: Id,
                      newId: nat -> Id, i: nat)
    requires CardsFor(cards, candidates, context, |candidates|, meeting, newId) && i < |cards|
    ensures cards[i].body.confidence >= 0.55 && cards[i].body.evidence != []
    ensures FromContext(cards[i].body.evidence, context) && NoRepeats(EvidenceIds(cards[i].body.evidence))
  {
    var n, positions := |candidates|, Accepted(candidates, context, |candidates|);
    AcceptedAre(candidates, context, n, positions[i]);
    var used := UsedBy(candidates, context, positions[i]);
    var id :| id in Citations(candidates[positions[i]], context) && id !in used;
    assert id in EvidenceIds(cards[i].body.evidence);
  }

  lemma CardsShareNothing(cards: seq<Proposal>, candidates: seq<Candidate>, context: seq<Segment>, meeting: Id,
                          newId: nat -> Id, i: nat, j: nat, id: Id)
    requires CardsFor(cards, candidates, context, |candidates|, meeting, newId)
    requires i < j < |cards| && id in EvidenceIds(cards[i].body.evidence)
    ensures id !in EvidenceIds(cards[j].body.evidence)
  {
    var n, positions := |candidates|, Accepted(candidates, context, |candidates|);
    CardTakes(cards, candidates, context, meeting, newId, positions[j], id);
    UsedIsTaken(candidates, context, positions[j], id);
    AcceptedIncrease(candidates, context, n, i, j);
  }

  /** The candidate cites something unknown, or everything it cites is on an earlier card. */
  ghost predicate UnknownOrTaken(cards: seq<Proposal>, candidates: seq<Candidate>, context: seq<Segment>, k: nat)
    requires k < |candidates| && |cards| == |Accepted(candidates, context, |candidates|)|
  {
    var positions := Accepted(candidates, context, |candidates|);
    || CitesUnknown(candidates[k], context, {})
    || forall id | id in Citations(candidates[k], context) ::
         exists i | 0 <= i < |cards| :: positions[i] < k && id in EvidenceIds(cards[i].body.evidence)
  }

  lemma RejectedExactly(cards: seq<Proposal>, candidates: seq<Candidate>, context: seq<Segment>, meeting: Id,
                        newId: nat -> Id, k: nat)
    requires CardsFor(cards, candidates, context, |candidates|, meeting, newId)
    requires k < |candidates| && candidates[k].confidence >= 0.55
    ensures k !in Accepted(candidates, context, |candidates|) <==> UnknownOrTaken(cards, candidates, context, k)
  {
    var positions := Accepted(candidates, context, |candidates|);
    AcceptedAre(candidates, context, |candidates|, k);
    forall id ensures id in UsedBy(candidates, context, k) <==>
                      exists i | 0 <= i < |cards| :: positions[i] < k && id in EvidenceIds(cards[i].body.evidence)
    {
      UsedIsTaken(candidates, context, k, id);
      CardTakes(cards, candidates, context, meeting, newId, k, id);
    }
  }

  lemma ConsideredBound(context: seq<Segment>, run: Run, reply: Reply)
    ensures |Considered(context, run, reply)| <= ClampCards(run.maxProposals) <= 3
  {
  }

  /** What every decision keeps, whatever the model replied: no more cards than asked
      for, and never over three; each confident enough and citing context segments, none
      of them twice, no two cards sharing one; and a confident candidate is rejected
      exactly when it cites something unknown or everything it cites is on an earlier
      card. */
  lemma CardsAreSafe(cards: seq<Proposal>, context: seq<Segment>, run: Run, reply: Reply, meeting: Id, newId: nat -> Id)
    requires var candidates := Considered(context, run, reply);
             CardsFor(cards, candidates, context, |candidates|, meeting, newId)
    ensures |cards| <= ClampCards(run.maxProposals) <= 3
    ensures forall i | 0 <= i < |cards| ::
              && cards[i].body.confidence >= 0.55 && cards[i].body.evidence != []
              && FromContext(cards[i].body.evidence, context) && NoRepeats(EvidenceIds(cards[i].body.evidence))
    ensures forall i, j, id | 0 <= i < j < |cards| && id in EvidenceIds(cards[i].body.evidence) ::
              id !in EvidenceIds(cards[j].body.evidence)
    ensures var candidates := Considered(context, run, reply);
            forall k: nat | k < |candidates| && candidates[k].confidence >= 0.55 ::
              k !in Accepted(candidates, context, |candidates|) <==> UnknownOrTaken(cards, candidates, context, k)
  {
    var candidates := Considered(context, run, reply);
    ConsideredBound(context, run, reply);
    forall i | 0 <= i < |cards|
      ensures cards[i].body.confidence >= 0.55 && cards[i].body.evidence != []
      ensures FromContext(cards[i].body.evidence, context) && NoRepeats(EvidenceIds(cards[i].body.evidence))
    {
      CardsAreSound(cards, candidates, context, meeting, newId, i);
    }
    forall i, j, id | 0 <= i < j < |cards| && id in EvidenceIds(cards[i].body.evidence)
      ensures id !in EvidenceIds(cards[j].body.evidence)
    {
      CardsShareNothing(cards, candidates, context, meeting, newId, i, j, id);
    }
    forall k: nat | k < |candidates| && candidates[k].confidence >= 0.55
      ensures k !in Accepted(candidates, context, |candidates|) <==> UnknownOrTaken(cards, candidates, context, k)
    {
      RejectedExactly(cards, candidates, context, meeting, newId, k);
    }
  }

  /** What the candidates before the k-th take is what the cards before it cite. */
  lemma CardTakes(cards: seq<Proposal>, candidates: seq<Candidate>, context: seq<Segment>, meeting: Id,
                  newId: nat -> Id, k: nat, id: Id)
    requires k <= |candidates| && CardsFor(cards, candidates, context, |candidates|, meeting, newId)
    ensures (exists q: nat | q < k :: Takes(candidates, context, q, id)) <==>
            var positions := Accepted(candidates, context, |candidates|);
            exists i | 0 <= i < |cards| :: positions[i] < k && id in EvidenceIds(cards[i].body.evidence)
  {
    var n, positions := |candidates|, Accepted(candidates, context, |candidates|);
    if exists q: nat | q < k :: Takes(candidates, context, q, id) {
      var q: nat :| q < k && Takes(candidates, context, q, id);
      AcceptedAre(candidates, context, n, q);
      var i :| 0 <= i < |positions| && positions[i] == q;
      assert id in EvidenceIds(cards[i].body.evidence);
    }
    if i :| 0 <= i < |cards| && positions[i] < k && id in EvidenceIds(cards[i].body.evidence) {
      AcceptedAre(candidates, context, n, positions[i]);
      assert Takes(candidates, context, positions[i], id);
    }
  }

  // ---- Deciding and recording ---------------------------------------------------------

  function CardRows(meeting: Id, cards: seq<Proposal>): (rows: seq<Event>)
    ensures |rows| == |cards|
  {
    if cards == [] then []
    else CardRows(meeting, cards[..|cards| - 1])
         + [Event(meeting, ProposalEvent(Created, Good(cards[|cards| - 1])))]
  }

  /** The rows a decision amounts to. */
  function DecisionRows(meeting: Id, d: Decision, recordNoProposal: bool): seq<Event> {
    CardRows(meeting, d.cards)
    + (if d.cards == [] && recordNoProposal && d.noProposal.Some?
       then [Event(meeting, ProposalNotCreated(Good(d.noProposal.value)))] else [])
  }

  ghost predicate Decides(d: Decision, meeting: Id, transcript: seq<Segment>, run: Run, reply: Reply,
                          newId: nat -> Id)
  {
    var context := SelectFinal(transcript, run.spans, 12);
    if run.debounce.Some? && !Proposer.ShouldRun(|transcript|, run.debounce.value) then d == Decision([], None)
    else
      var considered := Considered(context, run, reply);
      && CardsFor(d.cards, considered, context, |considered|, meeting, newId)
      && (d.noProposal.Some? <==> d.cards == [])
      && (d.noProposal.Some? ==> d.noProposal.value.spans == SpanIds(context))
  }

  /** Decide from a snapshot, without the store. */
  method ProposalDecision(meeting: Id, transcript: seq<Segment>, run: Run, reply: Reply, newId: nat -> Id)
    returns (d: Decision)
    ensures Decides(d, meeting, transcript, run, reply, newId)
  {
    if run.debounce.Some? && !Proposer.ShouldRun(|transcript|, run.debounce.value) {
      return Decision([], None);
    }
    d := Propose(meeting, SelectFinal(transcript, run.spans, AUTOMATIC_LIMIT), run, reply, newId);
  }

  function Cut(rows: seq<Event>, writable: nat): seq<Event> {
    if |rows| <= writable then rows else rows[..writable]
  }

  lemma {:induction false} CardRowsPrefix(meeting: Id, cards: seq<Proposal>, n: nat)
    requires n <= |cards|
    ensures CardRows(meeting, cards[..n]) == CardRows(meeting, cards)[..n]
  {
    if n < |cards| {
      CardRowsPrefix(meeting, cards[..|cards| - 1], n);
      assert cards[..|cards| - 1][..n] == cards[..n];
    } else {
      assert cards[..n] == cards;
    }
  }

  /** Append the decision's rows one by one; the store accepts `writable` more. */
  method RecordProposalDecision(store: EventStore, meeting: Id, d: Decision, recordNoProposal: bool, writable: nat)
    returns (ok: bool)
    modifies store
    ensures ok <==> |DecisionRows(meeting, d, recordNoProposal)| <= writable
    ensures store.events == old(store.events) + Cut(DecisionRows(meeting, d, recordNoProposal), writable)
  {
    ghost var rows := CardRows(meeting, d.cards);
    for i := 0 to |d.cards|
      invariant i <= writable
      invariant store.events == old(store.events) + rows[..i]
    {
      CardRowsPrefix(meeting, d.cards, i);
      CardRowsPrefix(meeting, d.cards, i + 1);
      assert d.cards[..i + 1][..i] == d.cards[..i];
      if i == writable {
        assert rows[..i] == Cut(DecisionRows(meeting, d, recordNoProposal), writable);
        return false;
      }
      store.Append(meeting, ProposalEvent(Created, Good(d.cards[i])));
    }
    if d.cards == [] && recordNoProposal && d.noProposal.Some? {
      if writable == 0 {
        return false;
      }
      store.Append(meeting, ProposalNotCreated(Good(d.noProposal.value)));
    }
    ok := true;
  }

  /** Going from one ledger to the other adds cards to the meeting's projected streams
      and touches nothing else. */
  ghost predicate Adds(before: seq<Event>, after: seq<Event>, meeting: Id, cards: seq<Proposal>) {
    && Finals(Of(after, meeting)) == Finals(Of(before, meeting))
    && JobStream(Of(after, meeting)) == JobStream(Of(before, meeting))
    && ProposalStream(Of(after, meeting)) == ProposalStream(Of(before, meeting)) + cards
  }

  lemma AddsRow(before: seq<Event>, after: seq<Event>, e: Event, meeting: Id, cards: seq<Proposal>)
    requires Adds(before, after, meeting, cards)
    requires e.meeting == meeting && FinalIn(e.body) == [] && JobIn(e.body) == []
    ensures Adds(before, after + [e], meeting, cards + ProposalIn(e.body))
  {
    StreamsAppend(after, e, meeting);
    Associate(ProposalStream(Of(before, meeting)), cards, ProposalIn(e.body));
  }

  lemma AddsNothing(log: seq<Event>, meeting: Id)
    ensures Adds(log, log, meeting, [])
  {
  }

  lemma {:induction false} CardRowsReplay(log: seq<Event>, meeting: Id, cards: seq<Proposal>)
    ensures Adds(log, log + CardRows(meeting, cards), meeting, cards)
  {
    if cards == [] {
      AddsNothing(log, meeting);
      assert log + CardRows(meeting, cards) == log;
    } else {
      var init, last := cards[..|cards| - 1], cards[|cards| - 1];
      var row := Event(meeting, ProposalEvent(Created, Good(last)));
      CardRowsReplay(log, meeting, init);
      AddsRow(log, log + CardRows(meeting, init), row, meeting, init);
      Associate(log, CardRows(meeting, init), [row]);
      assert cards == init + ProposalIn(row.body);
    }
  }

  lemma NoProposalReplay(log: seq<Event>, meeting: Id, noProposal: NoProposal)
    ensures Adds(log, log + [Event(meeting, ProposalNotCreated(Good(noProposal)))], meeting, [])
  {
    AddsNothing(log, meeting);
    AddsRow(log, log, Event(meeting, ProposalNotCreated(Good(noProposal))), meeting, []);
  }

  function Written(cards: seq<Proposal>, writable: nat): seq<Proposal> {
    if |cards| <= writable then cards else cards[..writable]
  }

  /** However much of a decision was written, its cards so far are all it adds. */
  lemma DecisionReplay(log: seq<Event>, meeting: Id, d: Decision, recordNoProposal: bool, writable: nat)
    ensures Adds(log, log + Cut(DecisionRows(meeting, d, recordNoProposal), writable), meeting,
                 Written(d.cards, writable))
  {
    var rows := DecisionRows(meeting, d, recordNoProposal);
    var cards := Written(d.cards, writable);
    if |rows| == |d.cards| + 1 && writable > 0 {
      NoProposalReplay(log, meeting, d.noProposal.value);
      assert rows == [Event(meeting, ProposalNotCreated(Good(d.noProposal.value)))];
    } else {
      CardRowsReplay(log, meeting, cards);
      CardRowsPrefix(meeting, d.cards, |cards|);
      assert Cut(rows, writable) == CardRows(meeting, cards);
    }
  }

  lemma {:induction false} LatestAppend<T>(stream: seq<Keyed<T>>, more: seq<Keyed<T>>, id: Id)
    ensures Latest(stream + more, id) == if Latest(more, id).Some? then Latest(more, id) else Latest(stream, id)
  {
    if more == [] {
      assert stream + more == stream;
    } else {
      var init, last := more[..|more| - 1], more[|more| - 1];
      LatestAppend(stream, init, id);
      assert (stream + more)[..|stream + more| - 1] == stream + init;
    }
  }

  lemma {:induction false} LatestNone<T>(stream: seq<Keyed<T>>, id: Id)
    ensures Latest(stream, id).None? <==> id !in Ids(stream)
  {
    if stream != [] {
      var init, last := stream[..|stream| - 1], stream[|stream| - 1];
      LatestNone(init, id);
      assert stream == init + [last];
      assert Ids(stream) == Ids(init) + [last.id];
    }
  }

  lemma {:induction false} LatestUnique<T>(stream: seq<Keyed<T>>, i: nat)
    requires i < |stream| && Distinct(stream)
    ensures Latest(stream, stream[i].id) == Some(stream[i])
  {
    if i < |stream| - 1 {
      assert stream[|stream| - 1].id != stream[i].id;
      LatestUnique(stream[..|stream| - 1], i);
    }
  }

  /** The projected cards after some more rows about new ids: the old entries as they
      were, and the new ones as recorded. */
  lemma NewCardsOnly(stream: seq<Proposal>, cards: seq<Proposal>, id: Id)
    requires Distinct(cards) && forall i | 0 <= i < |cards| :: cards[i].id !in Ids(stream)
    ensures id in Ids(stream) ==> Lookup(UpsertAll(stream + cards), id) == Lookup(UpsertAll(stream), id)
    ensures forall i | 0 <= i < |cards| && cards[i].id == id :: Lookup(UpsertAll(stream + cards), id) == Some(cards[i])
  {
    UpsertAllMeaning(stream, id);
    UpsertAllMeaning(stream + cards, id);
    LatestAppend(stream, cards, id);
    LatestNone(cards, id);
    assert forall i | 0 <= i < |cards| :: Ids(cards)[i] == cards[i].id;
    forall i | 0 <= i < |cards| && cards[i].id == id ensures Latest(cards, id) == Some(cards[i]) {
      LatestUnique(cards, i);
    }
  }

  ghost predicate GeneratesFresh(newId: nat -> Id, ids: seq<Id>) {
    && (forall i: nat, j: nat | i < j :: newId(i) != newId(j))
    && (forall i: nat :: newId(i) !in ids)
  }

  /** The context a decision was taken over stays citable: it is part of the transcript,
      and the transcript only grows. */
  lemma {:induction false} ContextInTranscript(transcript: seq<Segment>, spans: seq<Id>, limit: nat)
    ensures forall s | s in SelectFinal(transcript, spans, limit) ::
              s in transcript && s.isFinal && (spans != [] ==> s.id in spans)
  {
    FinalOnlyFacts(transcript);
    ChosenIn(transcript, spans);
  }

  lemma {:induction false} ChosenIn(transcript: seq<Segment>, spans: seq<Id>)
    ensures forall s | s in Chosen(transcript, spans) :: s in transcript && s.isFinal && s.id in spans
  {
    if transcript != [] {
      ChosenIn(transcript[1..], spans);
      assert forall s :: s in transcript <==> s == transcript[0] || s in transcript[1..];
    }
  }

  /** Whatever landed since the snapshot, every citation of a decision resolves. */
  lemma {:induction false} StaleEvidenceResolves(log: seq<Event>, more: seq<Event>, meeting: Id, run: Run, reply: Reply,
                                                 newId: nat -> Id, d: Decision)
    requires Decides(d, meeting, Finals(Of(log, meeting)), run, reply, newId)
    ensures forall card | card in d.cards :: FromContext(card.body.evidence, Finals(Of(log + more, meeting)))
  {
    var transcript, now := Finals(Of(log, meeting)), Finals(Of(log + more, meeting));
    FinalsGrow(log, more, meeting);
    EvidenceInTranscript(d, meeting, transcript, now, run, reply, newId);
  }

  lemma EvidenceInTranscript(d: Decision, meeting: Id, transcript: seq<Segment>, now: seq<Segment>,
                             run: Run, reply: Reply, newId: nat -> Id)
    requires Decides(d, meeting, transcript, run, reply, newId) && transcript <= now
    ensures forall card | card in d.cards :: FromContext(card.body.evidence, now)
  {
    var context := SelectFinal(transcript, run.spans, AUTOMATIC_LIMIT);
    ContextInTranscript(transcript, run.spans, AUTOMATIC_LIMIT);
    forall card | card in d.cards ensures FromContext(card.body.evidence, now) {
      var i :| 0 <= i < |d.cards| && d.cards[i] == card;
      assert FromContext(d.cards[i].body.evidence, context);
      assert forall s | s in context :: s in transcript && s in now;
    }
  }

  ghost predicate EntriesKept(before: seq<Proposal>, after: seq<Proposal>) {
    forall id | id in Ids(before) :: Lookup(UpsertAll(after), id) == Lookup(UpsertAll(before), id)
  }

  ghost predicate Standing(stream: seq<Proposal>, cards: seq<Proposal>) {
    forall i | 0 <= i < |cards| :: cards[i].body.status == Proposed
                                   && Lookup(UpsertAll(stream), cards[i].id) == Some(cards[i])
  }

  lemma NewCardsStand(stream: seq<Proposal>, cards: seq<Proposal>)
    requires Distinct(cards) && forall i | 0 <= i < |cards| :: cards[i].id !in Ids(stream)
    requires forall i | 0 <= i < |cards| :: cards[i].body.status == Proposed
    ensures EntriesKept(stream, stream + cards) && Standing(stream + cards, cards)
  {
    forall id | id in Ids(stream)
      ensures Lookup(UpsertAll(stream + cards), id) == Lookup(UpsertAll(stream), id)
    {
      NewCardsOnly(stream, cards, id);
    }
    forall i | 0 <= i < |cards| ensures Lookup(UpsertAll(stream + cards), cards[i].id) == Some(cards[i]) {
      NewCardsOnly(stream, cards, cards[i].id);
    }
  }

  lemma WrittenCards(d: Decision, meeting: Id, transcript: seq<Segment>, run: Run, reply: Reply,
                     newId: nat -> Id, writable: nat)
    requires Decides(d, meeting, transcript, run, reply, newId)
    ensures var cards := Written(d.cards, writable);
            forall i | 0 <= i < |cards| :: cards[i].id == newId(i) && cards[i].body.status == Proposed
  {
  }

  /** Deciding on a stale snapshot is safe. Whatever rows landed between the snapshot
      and the recording, and however much of the decision was written: every citation
      of a recorded card resolves in the current transcript, the transcript and the
      jobs are untouched, every card already there keeps its entry, and the new cards
      stand as proposed. */
  lemma {:induction false} StaleDecisionIsSafe(log: seq<Event>, more: seq<Event>, meeting: Id, run: Run, reply: Reply,
                                               newId: nat -> Id, d: Decision, writable: nat)
    requires Decides(d, meeting, Finals(Of(log, meeting)), run, reply, newId)
    requires GeneratesFresh(newId, Ids(ProposalStream(Of(log + more, meeting))))
    ensures var now := Of(log + more, meeting);
            var after := Of(log + more + Cut(DecisionRows(meeting, d, run.recordNoProposal), writable), meeting);
            && Finals(after) == Finals(now) && JobStream(after) == JobStream(now)
            && EntriesKept(ProposalStream(now), ProposalStream(after))
            && Standing(ProposalStream(after), Written(d.cards, writable))
            && forall card | card in d.cards :: FromContext(card.body.evidence, Finals(after))
  {
    var stream, cards := ProposalStream(Of(log + more, meeting)), Written(d.cards, writable);
    DecisionReplay(log + more, meeting, d, run.recordNoProposal, writable);
    StaleEvidenceResolves(log, more, meeting, run, reply, newId, d);
    WrittenCards(d, meeting, Finals(Of(log, meeting)), run, reply, newId, writable);
    NewCardsStand(stream, cards);
  }

  /** Project, decide, record, under one hold of the store. */
  method RunProposalAgent(store: EventStore, meeting: Id, run: Run, reply: Reply, newId: nat -> Id, writable: nat)
    returns (ok: bool, d: Decision)
    modifies store
    ensures ok ==> AllReadable(Of(old(store.events), meeting))
    ensures !AllReadable(Of(old(store.events), meeting)) ==> store.events == old(store.events)
    ensures AllReadable(Of(old(store.events), meeting)) ==>
              && Decides(d, meeting, Finals(Of(old(store.events), meeting)), run, reply, newId)
              && store.events == old(store.events) + Cut(DecisionRows(meeting, d, run.recordNoProposal), writable)
              && (ok <==> |DecisionRows(meeting, d, run.recordNoProposal)| <= writable)
  {
    ProjectsFinals(store.events, meeting);
    var projection := store.Projection(meeting);
    if projection.None? {
      return false, Decision([], None);
    }
    d := ProposalDecision(meeting, projection.value.transcript, run, reply, newId);
    ok := RecordProposalDecision(store, meeting, d, run.recordNoProposal, writable);
  }
}
