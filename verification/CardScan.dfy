/** On every ledger the daemon writes, the handlers' backward scan for a card and the
    projection of the card's meeting agree. */
module CardScan {
  import opened Domain
  import opened KeyedList
  import opened Replay
  import opened Readers
  import opened JobProtocol
  import opened JobTheorems

  /** A card row that decodes sits in the card's own meeting, and its status is what its
      kind says. */
  predicate ProperCardRow(e: Event) {
    e.body.ProposalEvent? && e.body.proposal.Good? ==>
      && e.meeting == e.body.proposal.value.body.meeting
      && e.body.proposal.value.body.status == match e.body.verb
                                              case Created => Proposed
                                              case Approve => Approved
                                              case Ignore => Ignored
  }

  /** The two bodies show the same suggestion, whatever was decided about it. */
  predicate SameSuggestion(a: ProposalBody, b: ProposalBody) {
    && a.meeting == b.meeting && a.title == b.title && a.draftPrompt == b.draftPrompt
    && a.evidence == b.evidence && a.confidence == b.confidence
  }

  /** All rows about one card sit in one meeting and show one suggestion. */
  ghost predicate CardsSettled(log: seq<Event>) {
    && (forall e | e in log :: ProperCardRow(e))
    && (forall a, b, card | a in log && b in log && CardRowAbout(a, card) && CardRowAbout(b, card) ::
        a.meeting == b.meeting && SameSuggestion(a.body.proposal.value.body, b.body.proposal.value.body))
  }

  lemma SettledAppend(log: seq<Event>, e: Event)
    requires CardsSettled(log) && ProperCardRow(e)
    requires forall a, card | a in log && CardRowAbout(a, card) && CardRowAbout(e, card) ::
               a.meeting == e.meeting && SameSuggestion(a.body.proposal.value.body, e.body.proposal.value.body)
    ensures CardsSettled(log + [e])
  {
    assert forall a | a in log + [e] :: a in log || a == e;
  }

  /** The newest row about the card is one of the ledger's. */
  lemma {:induction false} NewestIsRow(log: seq<Event>, card: Id)
    requires FindLatest(log, card).Newest?
    ensures exists e :: e in log && CardRowAbout(e, card) && e.body.proposal.value == FindLatest(log, card).proposal
  {
    var init, last := log[..|log| - 1], log[|log| - 1];
    if Stops(last.body, card) {
      assert last in log && CardRowAbout(last, card);
    } else {
      NewestIsRow(init, card);
      var e :| e in init && CardRowAbout(e, card) && e.body.proposal.value == FindLatest(init, card).proposal;
      assert e in log;
    }
  }

  /** Deciding a card again writes its row where its others are. */
  lemma SettledDecision(log: seq<Event>, id: Id, verb: ProposalVerb, status: ProposalStatus)
    requires CardsSettled(log) && FindLatest(log, id).Newest?
    requires (verb == Approve && status == Approved) || (verb == Ignore && status == Ignored)
    ensures CardsSettled(log + [CardRow(verb, WithStatus(FindLatest(log, id).proposal, status))])
  {
    NewestIsRow(log, id);
    var newest :| newest in log && CardRowAbout(newest, id)
                  && newest.body.proposal.value == FindLatest(log, id).proposal;
    SettledAppend(log, CardRow(verb, WithStatus(FindLatest(log, id).proposal, status)));
  }

  lemma SettledStep(s: State, step: Step)
    requires CardsSettled(s.log) && Enabled(s, step)
    ensures CardsSettled(Do(s, step).log)
  {
    if step.CreateCard? {
      SettledAppend(s.log, CardRow(Created, step.card));
    } else if step.IgnoreCard? {
      SettledDecision(s.log, step.id, Ignore, Ignored);
    } else if step.ApproveCard? {
      SettledDecision(s.log, step.id, Approve, Approved);
    } else {
      var rows := OneRowAtMost(s, step);
      NoCardRow(s, step, rows);
      if rows == [] {
        assert Do(s, step).log == s.log;
      } else {
        SettledAppend(s.log, rows[0]);
      }
    }
  }

  /** In every run a decision changes nothing of a card but its status: every decodable row
      about it shows the same meeting, title, draft, evidence and confidence, as proposed,
      approved or ignored according to its kind. */
  lemma {:induction false} CardRowsAgree(steps: seq<Step>, a: Event, b: Event, card: Id)
    requires Feasible(steps) && a in After(steps).log && b in After(steps).log
    requires CardRowAbout(a, card) && CardRowAbout(b, card)
    ensures var x, y := a.body.proposal.value.body, b.body.proposal.value.body;
            && a.meeting == b.meeting == x.meeting == y.meeting && x.title == y.title
            && x.draftPrompt == y.draftPrompt && x.evidence == y.evidence && x.confidence == y.confidence
    ensures a.body.proposal.value.body.status == match a.body.verb
                                                 case Created => Proposed
                                                 case Approve => Approved
                                                 case Ignore => Ignored
  {
    SettledAlways(steps);
  }

  lemma NoCardRow(s: State, step: Step, rows: seq<Event>)
    requires Enabled(s, step) && Do(s, step).log == s.log + rows && |rows| <= 1
    requires !step.CreateCard? && !step.IgnoreCard? && !step.ApproveCard?
    ensures rows != [] ==> ProposalIn(rows[0].body) == []
  {
    assert rows == Do(s, step).log[|s.log|..];
  }

  lemma {:induction false} SettledAlways(steps: seq<Step>)
    requires Feasible(steps)
    ensures CardsSettled(After(steps).log)
  {
    if steps != [] {
      SettledAlways(steps[..|steps| - 1]);
      SettledStep(After(steps[..|steps| - 1]), steps[|steps| - 1]);
    }
  }

  // ---- Where the scan fails --------------------------------------------------------------

  predicate DamagedCard(e: Event) {
    e.body.ProposalEvent? && e.body.proposal.Bad?
  }

  /** An undecodable card row, of whatever card and meeting, after every row about the card. */
  ghost predicate Blocked(log: seq<Event>, card: Id) {
    exists k | 0 <= k < |log| :: DamagedCard(log[k]) && forall i | k < i < |log| :: !CardRowAbout(log[i], card)
  }

  lemma BlockedAppend(log: seq<Event>, e: Event, card: Id)
    ensures Blocked(log + [e], card) <==> DamagedCard(e) || (Blocked(log, card) && !CardRowAbout(e, card))
  {
    var after := log + [e];
    if DamagedCard(e) {
      assert DamagedCard(after[|log|]);
    } else if Blocked(log, card) && !CardRowAbout(e, card) {
      var k :| 0 <= k < |log| && DamagedCard(log[k]) && forall i | k < i < |log| :: !CardRowAbout(log[i], card);
      assert DamagedCard(after[k]);
      assert forall i | k < i < |after| :: if i < |log| then after[i] == log[i] else after[i] == e;
    }
    if Blocked(after, card) && !DamagedCard(e) {
      var k :| 0 <= k < |after| && DamagedCard(after[k]) && forall i | k < i < |after| :: !CardRowAbout(after[i], card);
      assert after[|log|] == e && DamagedCard(log[k]);
      assert forall i | k < i < |log| :: after[i] == log[i];
    }
  }

  /** On every ledger: the scan fails exactly on the blocked cards. */
  lemma {:induction false} UnreadableIsBlocked(log: seq<Event>, card: Id)
    ensures FindLatest(log, card) == Unreadable <==> Blocked(log, card)
  {
    if log != [] {
      var init, last := log[..|log| - 1], log[|log| - 1];
      assert log == init + [last];
      UnreadableIsBlocked(init, card);
      BlockedAppend(init, last, card);
      FindLatestAppend(init, last, card);
    }
  }

  /** In every reachable state the scan fails exactly when an undecodable card row came
      after every row about the card. Otherwise it finds what the projection of the
      card's meeting shows under its id; a card it does not find is in no meeting's
      projection. */
  lemma {:induction false} ScanAgreesWithProjection(steps: seq<Step>, card: Id)
    requires Feasible(steps)
    ensures var log := After(steps).log;
            match FindLatest(log, card)
            case Unreadable => Blocked(log, card)
            case Missing =>
              !Blocked(log, card) && forall m :: Lookup(UpsertAll(ProposalStream(Of(log, m))), card) == None
            case Newest(p) =>
              !Blocked(log, card) && Lookup(UpsertAll(ProposalStream(Of(log, p.body.meeting))), card) == Some(p)
  {
    var log := After(steps).log;
    SettledAlways(steps);
    UnreadableIsBlocked(log, card);
    if FindLatest(log, card).Newest? {
      NewestIsRow(log, card);
      ScanEqualsFold(log, card, FindLatest(log, card).proposal.body.meeting);
    } else if FindLatest(log, card) == Missing {
      NoRowWhenMissing(log, card);
      forall m ensures Lookup(UpsertAll(ProposalStream(Of(log, m))), card) == None {
        ScanEqualsFold(log, card, m);
      }
    }
  }

  lemma NoRowWhenMissing(log: seq<Event>, card: Id)
    requires FindLatest(log, card) == Missing
    ensures forall e | e in log :: !CardRowAbout(e, card)
  {
    FindLatestExactly(log, card);
  }

  // ---- What one undecodable card row does ------------------------------------------------

  lemma BlockedRows(log: seq<Event>, rows: seq<Event>, card: Id)
    requires FindLatest(log, card) == Unreadable && |rows| <= 1
    requires rows != [] ==> !CardRowAbout(rows[0], card)
    ensures FindLatest(log + rows, card) == Unreadable
  {
    if rows == [] {
      assert log + rows == log;
    } else {
      assert rows == [rows[0]];
      FindLatestAppend(log, rows[0], card);
    }
  }

  lemma BlockedStep(s: State, step: Step, card: Id)
    requires Enabled(s, step) && !CardUnseen(s.log, card) && FindLatest(s.log, card) == Unreadable
    ensures !CardUnseen(Do(s, step).log, card) && FindLatest(Do(s, step).log, card) == Unreadable
  {
    var rows := OneRowAtMost(s, step);
    var seen :| seen in s.log && CardRowAbout(seen, card);
    assert seen in Do(s, step).log;
    if step.IgnoreCard? || step.ApproveCard? {
      FindLatestSeen(s.log, step.id);
    }
    BlockedStepRows(s, step, rows, card);
    BlockedRows(s.log, rows, card);
  }

  lemma BlockedStepRows(s: State, step: Step, rows: seq<Event>, card: Id)
    requires Enabled(s, step) && !CardUnseen(s.log, card) && FindLatest(s.log, card) == Unreadable
    requires Do(s, step).log == s.log + rows && |rows| <= 1
    requires step.IgnoreCard? || step.ApproveCard? ==> FindLatest(s.log, step.id).proposal.id == step.id
    ensures rows != [] ==> !CardRowAbout(rows[0], card)
  {
    assert rows == Do(s, step).log[|s.log|..];
  }

  lemma {:induction false} UnreadableStays(steps: seq<Step>, more: seq<Step>, card: Id)
    requires Feasible(steps) && Feasible(more) && steps <= more
    requires !CardUnseen(After(steps).log, card) && FindLatest(After(steps).log, card) == Unreadable
    ensures !CardUnseen(After(more).log, card) && FindLatest(After(more).log, card) == Unreadable
  {
    if |more| == |steps| {
      assert more == steps;
    } else {
      var init := more[..|more| - 1];
      assert steps <= init;
      UnreadableStays(steps, init, card);
      BlockedStep(After(init), more[|more| - 1], card);
    }
  }

  lemma NoDecision(s: State, card: Id)
    requires FindLatest(s.log, card) == Unreadable
    ensures !Enabled(s, ApproveCard(card)) && !Enabled(s, IgnoreCard(card))
  {
  }

  /** A card the ledger knows that is blocked once is blocked in every continuation of
      the run: nobody can approve or ignore it again. */
  lemma {:induction false} BlockedForGood(steps: seq<Step>, more: seq<Step>, card: Id)
    requires Feasible(steps) && Feasible(more) && steps <= more
    requires !CardUnseen(After(steps).log, card) && Blocked(After(steps).log, card)
    ensures Blocked(After(more).log, card)
    ensures !Enabled(After(more), ApproveCard(card)) && !Enabled(After(more), IgnoreCard(card))
  {
    UnreadableIsBlocked(After(steps).log, card);
    UnreadableStays(steps, more, card);
    UnreadableIsBlocked(After(more).log, card);
    NoDecision(After(more), card);
  }

  /** One undecodable card row, in any meeting, is enough to block every card so far. */
  lemma {:induction false} OneRowBlocksAll(steps: seq<Step>, damage: Event, card: Id)
    requires Feasible(steps) && DamagedCard(damage) && !CardUnseen(After(steps).log, card)
    ensures Feasible(steps + [Foreign(damage)])
    ensures var log := After(steps + [Foreign(damage)]).log;
            !CardUnseen(log, card) && Blocked(log, card)
  {
    var log := After(steps).log;
    Extend(steps, Foreign(damage));
    BlockedAppend(log, damage, card);
    var seen :| seen in log && CardRowAbout(seen, card);
    assert seen in log + [damage];
  }
}
