/** Which transcript segments proposal logic may see, and the Ask Standby request
    that records them. */
module ProposalContext {
  import opened Domain
  import opened Replay
  import opened Sequences

  const AUTOMATIC_LIMIT: nat := 12
  const REQUEST_RECENT_LIMIT: nat := 8
  const FULL_LIMIT: nat := 0xFFFF_FFFF_FFFF_FFFF

  datatype Window = Recent | Full

  function FinalOnly(transcript: seq<Segment>): seq<Segment> {
    if transcript == [] then []
    else (if transcript[0].isFinal then [transcript[0]] else []) + FinalOnly(transcript[1..])
  }

  function Chosen(transcript: seq<Segment>, spans: seq<Id>): seq<Segment> {
    if transcript == [] then []
    else (if transcript[0].isFinal && transcript[0].id in spans then [transcript[0]] else [])
         + Chosen(transcript[1..], spans)
  }

  /** The requested spans if any, otherwise the most recent final segments. */
  function SelectFinal(transcript: seq<Segment>, spans: seq<Id>, recentLimit: nat): seq<Segment> {
    if spans != [] then Chosen(transcript, spans)
    else
      var finals := FinalOnly(transcript);
      finals[if |finals| <= recentLimit then 0 else |finals| - recentLimit..]
  }

  function SpanIds(segments: seq<Segment>): (ids: seq<Id>)
    ensures |ids| == |segments|
    ensures forall i | 0 <= i < |segments| :: ids[i] == segments[i].id
  {
    if segments == [] then [] else [segments[0].id] + SpanIds(segments[1..])
  }

  function LimitOf(window: Window): nat {
    if window == Full then FULL_LIMIT else REQUEST_RECENT_LIMIT
  }

  function ClampCards(n: nat): nat {
    if n < 1 then 1 else if n > 3 then 3 else n
  }

  /** `ProposalRequestEngine::build`. */
  function BuildRequest(id: Id, window: Window, maxProposals: nat, transcript: seq<Segment>): ProposalRequest {
    ProposalRequest(id, SpanIds(SelectFinal(transcript, [], LimitOf(window))), ClampCards(maxProposals))
  }

  ghost predicate DistinctIds(segments: seq<Segment>) {
    forall i, j | 0 <= i < j < |segments| :: segments[i].id != segments[j].id
  }

  lemma {:induction false} FinalOnlyFacts(transcript: seq<Segment>)
    ensures forall s :: s in FinalOnly(transcript) <==> s in transcript && s.isFinal
    ensures DistinctIds(transcript) ==> DistinctIds(FinalOnly(transcript))
  {
    if transcript != [] {
      FinalOnlyFacts(transcript[1..]);
      assert forall s :: s in transcript <==> s == transcript[0] || s in transcript[1..];
      if DistinctIds(transcript) {
        assert DistinctIds(transcript[1..]);
        forall s | s in FinalOnly(transcript[1..]) ensures s.id != transcript[0].id {
          var j :| 0 <= j < |transcript[1..]| && transcript[1..][j] == s;
          assert transcript[j + 1] == s;
        }
      }
    }
  }

  lemma {:induction false} ChosenAppend(a: seq<Segment>, b: seq<Segment>, spans: seq<Id>)
    ensures Chosen(a + b, spans) == Chosen(a, spans) + Chosen(b, spans)
  {
    if a == [] {
      assert a + b == b;
    } else {
      ChosenAppend(a[1..], b, spans);
      TailOfAppend(a, b);
      Associate(if a[0].isFinal && a[0].id in spans then [a[0]] else [], Chosen(a[1..], spans), Chosen(b, spans));
    }
  }

  lemma {:induction false} ChosenNone(segments: seq<Segment>, spans: seq<Id>)
    requires forall s | s in segments :: s.id !in spans
    ensures Chosen(segments, spans) == []
  {
    if segments != [] {
      assert segments[0] in segments;
      ChosenNone(segments[1..], spans);
    }
  }

  lemma {:induction false} ChosenAll(segments: seq<Segment>, spans: seq<Id>)
    requires forall s | s in segments :: s.isFinal && s.id in spans
    ensures Chosen(segments, spans) == segments
  {
    if segments != [] {
      assert segments[0] in segments;
      ChosenAll(segments[1..], spans);
    }
  }

  /** Choosing looks only at final segments. */
  lemma {:induction false} ChosenOfFinals(transcript: seq<Segment>, spans: seq<Id>)
    ensures Chosen(transcript, spans) == Chosen(FinalOnly(transcript), spans)
  {
    if transcript != [] {
      ChosenOfFinals(transcript[1..], spans);
      var finals := FinalOnly(transcript);
      if transcript[0].isFinal {
        assert finals[1..] == FinalOnly(transcript[1..]);
      } else {
        assert finals == FinalOnly(transcript[1..]);
      }
    }
  }

  lemma {:induction false} SpanIdsOf(segments: seq<Segment>, id: Id)
    ensures id in SpanIds(segments) <==> exists s :: s in segments && s.id == id
  {
    if segments != [] {
      SpanIdsOf(segments[1..], id);
      assert forall s :: s in segments <==> s == segments[0] || s in segments[1..];
      assert SpanIds(segments) == [segments[0].id] + SpanIds(segments[1..]);
    }
  }

  lemma DistinctApart(a: seq<Segment>, b: seq<Segment>, s: Segment, t: Segment)
    requires DistinctIds(a + b) && s in a && t in b
    ensures s.id != t.id
  {
    var i :| 0 <= i < |a| && a[i] == s;
    var j :| 0 <= j < |b| && b[j] == t;
    assert (a + b)[i] == s && (a + b)[|a| + j] == t;
  }

  /** Choosing by the ids of b ignores what is distinct from b. */
  lemma ChosenApart(a: seq<Segment>, b: seq<Segment>, from: seq<Segment>)
    requires DistinctIds(a + b) || DistinctIds(b + a)
    requires forall s | s in from :: s in b
    ensures Chosen(a, SpanIds(from)) == []
  {
    forall s | s in a ensures s.id !in SpanIds(from) {
      SpanIdsOf(from, s.id);
      forall t | t in from ensures t.id != s.id {
        if DistinctIds(a + b) {
          DistinctApart(a, b, s, t);
        } else {
          DistinctApart(b, a, t, s);
        }
      }
    }
    ChosenNone(a, SpanIds(from));
  }

  /** Re-selecting a suffix of distinct finals by its ids gives the suffix back. */
  lemma ReselectSuffix(finals: seq<Segment>, start: nat)
    requires start <= |finals| && DistinctIds(finals)
    requires forall s | s in finals :: s.isFinal
    ensures Chosen(finals, SpanIds(finals[start..])) == finals[start..]
  {
    var before, kept := finals[..start], finals[start..];
    assert finals == before + kept;
    ChosenAppend(before, kept, SpanIds(kept));
    ChosenApart(before, kept, kept);
    forall s | s in kept ensures s.isFinal && s.id in SpanIds(kept) {
      SpanIdsOf(kept, s.id);
      assert s in finals;
    }
    ChosenAll(kept, SpanIds(kept));
  }

  lemma DistinctPrefix(a: seq<Segment>, b: seq<Segment>)
    requires DistinctIds(a + b)
    ensures DistinctIds(a)
  {
    assert forall i | 0 <= i < |a| :: (a + b)[i] == a[i];
  }

  lemma ReselectRecorded(transcript: seq<Segment>, start: nat)
    requires DistinctIds(transcript) && start <= |FinalOnly(transcript)|
    ensures Chosen(transcript, SpanIds(FinalOnly(transcript)[start..])) == FinalOnly(transcript)[start..]
    ensures forall s | s in FinalOnly(transcript)[start..] :: s in transcript
  {
    var finals := FinalOnly(transcript);
    FinalOnlyFacts(transcript);
    ReselectSuffix(finals, start);
    ChosenOfFinals(transcript, SpanIds(finals[start..]));
    assert forall s | s in finals[start..] :: s in finals;
  }

  /** Ask Standby round trip: re-selecting by the recorded spans gives exactly the
      recorded segments, in order, whatever fresh segments have been appended since. */
  lemma {:induction false} RoundTrip(transcript: seq<Segment>, later: seq<Segment>, limit: nat, otherLimit: nat)
    requires DistinctIds(transcript + later)
    requires SelectFinal(transcript, [], limit) != []
    ensures var recorded := SelectFinal(transcript, [], limit);
            SelectFinal(transcript + later, SpanIds(recorded), otherLimit) == recorded
  {
    var finals := FinalOnly(transcript);
    var start := if |finals| <= limit then 0 else |finals| - limit;
    var recorded := finals[start..];
    DistinctPrefix(transcript, later);
    ReselectRecorded(transcript, start);
    ChosenAppend(transcript, later, SpanIds(recorded));
    ChosenApart(later, transcript, recorded);
  }

  lemma {:induction false} FinalOnlyAppend(a: seq<Segment>, b: seq<Segment>)
    ensures FinalOnly(a + b) == FinalOnly(a) + FinalOnly(b)
  {
    if a == [] {
      assert a + b == b;
    } else {
      FinalOnlyAppend(a[1..], b);
      TailOfAppend(a, b);
      Associate(if a[0].isFinal then [a[0]] else [], FinalOnly(a[1..]), FinalOnly(b));
    }
  }

  /** The exact condition. A request recorded over no final segment carries no spans,
      so it re-selects the recent window instead: the round trip then holds if and only
      if no final segment has been appended since. */
  lemma {:induction false} RoundTripExactly(transcript: seq<Segment>, later: seq<Segment>, limit: nat, otherLimit: nat)
    requires DistinctIds(transcript + later) && limit > 0 && otherLimit > 0
    ensures var recorded := SelectFinal(transcript, [], limit);
            SelectFinal(transcript + later, SpanIds(recorded), otherLimit) == recorded <==>
            FinalOnly(transcript) != [] || FinalOnly(later) == []
  {
    if FinalOnly(transcript) != [] {
      RoundTrip(transcript, later, limit, otherLimit);
    } else {
      FinalOnlyAppend(transcript, later);
    }
  }

  // ---- What is selected, position by position ---------------------------------------------

  /** The segment is final and, where ids are wanted, has one of them. */
  predicate Eligible(s: Segment, wanted: Option<seq<Id>>) {
    s.isFinal && (wanted.Some? ==> s.id in wanted.value)
  }

  /** Where the eligible segments stand in the transcript. */
  function Places(transcript: seq<Segment>, wanted: Option<seq<Id>>): (at: seq<nat>)
    ensures forall i | 0 <= i < |at| :: at[i] < |transcript|
  {
    if transcript == [] then []
    else
      var n := |transcript| - 1;
      Places(transcript[..n], wanted) + (if Eligible(transcript[n], wanted) then [n] else [])
  }

  /** They are in order, and all there are. */
  lemma {:induction false} PlacesAre(transcript: seq<Segment>, wanted: Option<seq<Id>>)
    ensures var at := Places(transcript, wanted);
            && (forall i, j | 0 <= i < j < |at| :: at[i] < at[j])
            && (forall k: nat | k < |transcript| ::
                  k in at <==> transcript[k].isFinal && (wanted.Some? ==> transcript[k].id in wanted.value))
  {
    if transcript != [] {
      var n := |transcript| - 1;
      PlacesAre(transcript[..n], wanted);
      var before, at := Places(transcript[..n], wanted), Places(transcript, wanted);
      forall k: nat | k < |transcript| ensures k in at <==> Eligible(transcript[k], wanted) {
        assert k in at <==> k in before || (k == n && Eligible(transcript[n], wanted));
        assert k < n ==> transcript[..n][k] == transcript[k];
      }
    }
  }

  /** The segments at these places. */
  function SegmentsAt(transcript: seq<Segment>, at: seq<nat>): (r: seq<Segment>)
    requires forall i | 0 <= i < |at| :: at[i] < |transcript|
    ensures |r| == |at| && forall i | 0 <= i < |at| :: r[i] == transcript[at[i]]
  {
    if at == [] then [] else [transcript[at[0]]] + SegmentsAt(transcript, at[1..])
  }

  lemma SegmentsAtLast(transcript: seq<Segment>, n: nat, at: seq<nat>)
    requires n < |transcript| && forall i | 0 <= i < |at| :: at[i] < n
    ensures SegmentsAt(transcript, at) == SegmentsAt(transcript[..n], at)
    ensures SegmentsAt(transcript, at + [n]) == SegmentsAt(transcript[..n], at) + [transcript[n]]
  {
  }

  lemma {:induction false} FinalsAre(transcript: seq<Segment>)
    ensures FinalOnly(transcript) == SegmentsAt(transcript, Places(transcript, None))
  {
    if transcript != [] {
      var n := |transcript| - 1;
      FinalsAre(transcript[..n]);
      SplitLast(transcript);
      FinalOnlyAppend(transcript[..n], [transcript[n]]);
      SegmentsAtLast(transcript, n, Places(transcript[..n], None));
    }
  }

  lemma {:induction false} ChosenAre(transcript: seq<Segment>, spans: seq<Id>)
    ensures Chosen(transcript, spans) == SegmentsAt(transcript, Places(transcript, Some(spans)))
  {
    if transcript != [] {
      var n := |transcript| - 1;
      ChosenAre(transcript[..n], spans);
      SplitLast(transcript);
      ChosenAppend(transcript[..n], [transcript[n]], spans);
      SegmentsAtLast(transcript, n, Places(transcript[..n], Some(spans)));
    }
  }

  /** The last of the places, as many as the limit allows. */
  function LastOf(at: seq<nat>, limit: nat): seq<nat> {
    if |at| <= limit then at else at[|at| - limit..]
  }

  /** With no spans the selection is the last final segments of the transcript, as many as
      the limit allows; with spans it is every final segment with one of those ids. Either
      way in transcript order. */
  lemma SelectionIs(transcript: seq<Segment>, spans: seq<Id>, limit: nat)
    ensures SelectFinal(transcript, spans, limit) ==
            if spans == [] then SegmentsAt(transcript, LastOf(Places(transcript, None), limit))
            else SegmentsAt(transcript, Places(transcript, Some(spans)))
  {
    FinalsAre(transcript);
    ChosenAre(transcript, spans);
  }
}
