/** Which of the model's candidates become cards, and with which evidence. The
    model's response is an arbitrary input throughout. */
module EvidenceSelection {
  import opened Domain
  import opened Sequences
  import opened Replay

  /** One candidate of the model's response; nothing about it is trusted. */
  datatype Candidate = Candidate(
    title: string, draftPrompt: string, segmentIds: seq<Id>, indexes: seq<nat>, confidence: real)

  const CONFIDENCE_FLOOR: real := 0.55

  predicate Known(context: seq<Segment>, id: Id) {
    exists i | 0 <= i < |context| :: context[i].id == id
  }

  /** The first context segment with the id. */
  method FindSegment(context: seq<Segment>, id: Id) returns (r: Option<Segment>)
    ensures r.Some? <==> Known(context, id)
    ensures r.Some? ==> r.value in context && r.value.id == id
  {
    for i := 0 to |context|
      invariant forall k | 0 <= k < i :: context[k].id != id
    {
      if context[i].id == id {
        return Some(context[i]);
      }
    }
    r := None;
  }

  function CitedAt(context: seq<Segment>, indexes: seq<nat>): seq<Id> {
    if indexes == [] then []
    else
      var last := indexes[|indexes| - 1];
      CitedAt(context, indexes[..|indexes| - 1]) + (if last < |context| then [context[last].id] else [])
  }

  /** Everything a candidate cites, in order: by id, then by index. */
  function Citations(candidate: Candidate, context: seq<Segment>): seq<Id> {
    candidate.segmentIds + CitedAt(context, candidate.indexes)
  }

  /** An id not in the context, other than those passed over, or an index past its end. */
  ghost predicate CitesUnknown(candidate: Candidate, context: seq<Segment>, passed: set<Id>) {
    || (exists k | 0 <= k < |candidate.segmentIds| ::
          candidate.segmentIds[k] !in passed && !Known(context, candidate.segmentIds[k]))
    || (exists k | 0 <= k < |candidate.indexes| :: candidate.indexes[k] >= |context|)
  }

  /** The ids outside `used`, each once, in order of first appearance. */
  function FreshIds(ids: seq<Id>, used: set<Id>): (r: seq<Id>)
    ensures forall id :: id in r <==> id in ids && id !in used
    ensures NoRepeats(r)
  {
    if ids == [] then []
    else
      var init, last := ids[..|ids| - 1], ids[|ids| - 1];
      assert ids == init + [last];
      var before := FreshIds(init, used);
      if last in used || last in before then before else before + [last]
  }

  lemma FreshIdsExtend(ids: seq<Id>, id: Id, used: set<Id>)
    ensures FreshIds(ids + [id], used) ==
            FreshIds(ids, used) + (if id in used || id in FreshIds(ids, used) then [] else [id])
  {
    assert (ids + [id])[..|ids|] == ids;
  }

  ghost predicate FromContext(evidence: seq<Evidence>, context: seq<Segment>) {
    forall e | e in evidence ::
      exists s :: s in context && e == Evidence(s.id, s.speaker, s.startMs, s.endMs, s.text)
  }

  /** The evidence collected for the citations read so far. */
  ghost predicate Gathered(
    evidence: seq<Evidence>, seen: set<Id>, cited: seq<Id>, context: seq<Segment>, used: set<Id>)
  {
    && FromContext(evidence, context)
    && EvidenceIds(evidence) == FreshIds(cited, used)
    && forall id :: id in seen <==> id in cited && id !in used
  }

  lemma PassCitation(evidence: seq<Evidence>, seen: set<Id>, cited: seq<Id>, context: seq<Segment>, used: set<Id>,
                     id: Id)
    requires Gathered(evidence, seen, cited, context, used) && (id in used || id in seen)
    ensures Gathered(evidence, seen, cited + [id], context, used)
  {
    FreshIdsExtend(cited, id, used);
  }

  lemma TakeCitation(evidence: seq<Evidence>, seen: set<Id>, cited: seq<Id>, context: seq<Segment>, used: set<Id>,
                     s: Segment)
    requires Gathered(evidence, seen, cited, context, used) && s in context && s.id !in used && s.id !in seen
    ensures Gathered(evidence + [Cite(s)], seen + {s.id}, cited + [s.id], context, used)
  {
    FreshIdsExtend(cited, s.id, used);
    assert (evidence + [Cite(s)])[..|evidence|] == evidence;
    forall e | e in evidence + [Cite(s)] ensures exists x :: x in context && Cite(x) == e {
      assert e in evidence || e == Cite(s);
    }
  }

  method GatherIds(ids: seq<Id>, context: seq<Segment>, used: set<Id>)
    returns (ok: bool, evidence: seq<Evidence>, seen: set<Id>)
    ensures ok <==> forall k | 0 <= k < |ids| :: ids[k] in used || Known(context, ids[k])
    ensures ok ==> Gathered(evidence, seen, ids, context, used)
  {
    evidence, seen := [], {};
    for i := 0 to |ids|
      invariant forall k | 0 <= k < i :: ids[k] in used || Known(context, ids[k])
      invariant Gathered(evidence, seen, ids[..i], context, used)
    {
      var id := ids[i];
      assert ids[..i + 1] == ids[..i] + [id];
      if id in used || id in seen {
        PassCitation(evidence, seen, ids[..i], context, used, id);
      } else {
        var found := FindSegment(context, id);
        if found.None? {
          return false, [], {};
        }
        TakeCitation(evidence, seen, ids[..i], context, used, found.value);
        seen := seen + {id};
        evidence := evidence + [Cite(found.value)];
      }
    }
    assert ids[..|ids|] == ids;
    ok := true;
  }

  /** Cite a segment of the context, unless an accepted card or this one already does. */
  method CiteUnused(s: Segment, evidence: seq<Evidence>, seen: set<Id>, ghost cited: seq<Id>, context: seq<Segment>,
                    used: set<Id>)
    returns (evidence': seq<Evidence>, seen': set<Id>)
    requires Gathered(evidence, seen, cited, context, used) && s in context
    ensures Gathered(evidence', seen', cited + [s.id], context, used)
  {
    evidence', seen' := evidence, seen;
    if s.id in used || s.id in seen {
      PassCitation(evidence, seen, cited, context, used, s.id);
    } else {
      TakeCitation(evidence, seen, cited, context, used, s);
      seen' := seen + {s.id};
      evidence' := evidence + [Cite(s)];
    }
  }

  function CitedUpTo(ids: seq<Id>, context: seq<Segment>, indexes: seq<nat>, i: nat): seq<Id>
    requires i <= |indexes|
  {
    ids + CitedAt(context, indexes[..i])
  }

  lemma CitedNext(ids: seq<Id>, context: seq<Segment>, indexes: seq<nat>, i: nat)
    requires i < |indexes| && indexes[i] < |context|
    ensures CitedUpTo(ids, context, indexes, i + 1) == CitedUpTo(ids, context, indexes, i) + [context[indexes[i]].id]
  {
    assert indexes[..i + 1][..i] == indexes[..i];
    Associate(ids, CitedAt(context, indexes[..i]), [context[indexes[i]].id]);
  }

  method CiteIndex(i: nat, indexes: seq<nat>, ghost ids: seq<Id>, context: seq<Segment>, used: set<Id>,
                   evidence: seq<Evidence>, seen: set<Id>)
    returns (evidence': seq<Evidence>, seen': set<Id>)
    requires i < |indexes| && indexes[i] < |context|
    requires Gathered(evidence, seen, CitedUpTo(ids, context, indexes, i), context, used)
    ensures Gathered(evidence', seen', CitedUpTo(ids, context, indexes, i + 1), context, used)
  {
    evidence', seen' :=
      CiteUnused(context[indexes[i]], evidence, seen, CitedUpTo(ids, context, indexes, i), context, used);
    CitedNext(ids, context, indexes, i);
  }

  lemma NoneCited(evidence: seq<Evidence>, seen: set<Id>, ids: seq<Id>, context: seq<Segment>, indexes: seq<nat>,
                  used: set<Id>)
    requires Gathered(evidence, seen, ids, context, used)
    ensures Gathered(evidence, seen, CitedUpTo(ids, context, indexes, 0), context, used)
  {
    assert ids + CitedAt(context, []) == ids;
  }

  lemma AllCited(evidence: seq<Evidence>, seen: set<Id>, ids: seq<Id>, context: seq<Segment>, indexes: seq<nat>,
                 used: set<Id>)
    requires Gathered(evidence, seen, CitedUpTo(ids, context, indexes, |indexes|), context, used)
    ensures Gathered(evidence, seen, ids + CitedAt(context, indexes), context, used)
  {
    assert indexes[..|indexes|] == indexes;
  }

  method GatherIndexes(indexes: seq<nat>, ids: seq<Id>, context: seq<Segment>, used: set<Id>,
                       already: seq<Evidence>, marked: set<Id>)
    returns (ok: bool, evidence: seq<Evidence>, seen: set<Id>)
    requires Gathered(already, marked, ids, context, used)
    ensures ok <==> forall k | 0 <= k < |indexes| :: indexes[k] < |context|
    ensures ok ==> Gathered(evidence, seen, ids + CitedAt(context, indexes), context, used)
  {
    NoneCited(already, marked, ids, context, indexes, used);
    evidence, seen := already, marked;
    for i := 0 to |indexes|
      invariant forall k | 0 <= k < i :: indexes[k] < |context|
      invariant Gathered(evidence, seen, CitedUpTo(ids, context, indexes, i), context, used)
    {
      if indexes[i] >= |context| {
        return false, [], {};
      }
      evidence, seen := CiteIndex(i, indexes, ids, context, used, evidence, seen);
    }
    AllCited(evidence, seen, ids, context, indexes, used);
    ok := true;
  }

  /** Resolve a candidate's citations, ids before indexes, skipping what an accepted
      card already used. It fails exactly when a citation is unknown or nothing new is
      left to cite; otherwise the evidence is the unused citations, each once, in the
      order cited, taken from the context. */
  method CandidateEvidence(candidate: Candidate, context: seq<Segment>, used: set<Id>)
    returns (r: Option<seq<Evidence>>)
    ensures r.None? <==>
            CitesUnknown(candidate, context, used) || FreshIds(Citations(candidate, context), used) == []
    ensures r.Some? ==> FromContext(r.value, context)
                        && EvidenceIds(r.value) == FreshIds(Citations(candidate, context), used)
  {
    var ok, evidence, seen := GatherIds(candidate.segmentIds, context, used);
    if !ok {
      return None;
    }
    ok, evidence, seen := GatherIndexes(candidate.indexes, candidate.segmentIds, context, used, evidence, seen);
    if !ok {
      return None;
    }
    assert |EvidenceIds(evidence)| == |evidence|;
    if evidence == [] {
      return None;
    }
    r := Some(evidence);
  }

  // ---- Which candidates are accepted --------------------------------------------------

  /** Everything known, confident enough, and something not yet cited by a card. */
  ghost predicate Accepts(candidate: Candidate, context: seq<Segment>, used: set<Id>) {
    && candidate.confidence >= 0.55
    && !CitesUnknown(candidate, context, {})
    && exists id :: id in Citations(candidate, context) && id !in used
  }

  /** What the cards made from the first n candidates cite. */
  ghost function UsedBy(candidates: seq<Candidate>, context: seq<Segment>, n: nat): set<Id>
    requires n <= |candidates|
  {
    if n == 0 then {}
    else
      var before := UsedBy(candidates, context, n - 1);
      var cited := Citations(candidates[n - 1], context);
      if Accepts(candidates[n - 1], context, before) then before + (set id | id in cited) else before
  }

  /** The positions, among the first n candidates, of those that become cards. */
  ghost function Accepted(candidates: seq<Candidate>, context: seq<Segment>, n: nat): (positions: seq<nat>)
    requires n <= |candidates|
    ensures |positions| <= n
    ensures forall i | 0 <= i < |positions| :: positions[i] < n
  {
    if n == 0 then []
    else
      Accepted(candidates, context, n - 1)
      + (if Accepts(candidates[n - 1], context, UsedBy(candidates, context, n - 1)) then [n - 1] else [])
  }

  lemma {:induction false} AcceptedAre(candidates: seq<Candidate>, context: seq<Segment>, n: nat, k: nat)
    requires k < n <= |candidates|
    ensures k in Accepted(candidates, context, n) <==>
            Accepts(candidates[k], context, UsedBy(candidates, context, k))
  {
    if k < n - 1 {
      AcceptedAre(candidates, context, n - 1, k);
    }
  }

  lemma {:induction false} CitedAtKnown(context: seq<Segment>, indexes: seq<nat>)
    ensures forall id | id in CitedAt(context, indexes) :: Known(context, id)
  {
    if indexes != [] {
      CitedAtKnown(context, indexes[..|indexes| - 1]);
    }
  }

  lemma {:induction false} UsedIsKnown(candidates: seq<Candidate>, context: seq<Segment>, n: nat)
    requires n <= |candidates|
    ensures forall id | id in UsedBy(candidates, context, n) :: Known(context, id)
  {
    if n > 0 {
      UsedIsKnown(candidates, context, n - 1);
      var candidate := candidates[n - 1];
      if Accepts(candidate, context, UsedBy(candidates, context, n - 1)) {
        CitedAtKnown(context, candidate.indexes);
        forall id | id in Citations(candidate, context) ensures Known(context, id) {
          if id in candidate.segmentIds {
            var k :| 0 <= k < |candidate.segmentIds| && candidate.segmentIds[k] == id;
          }
        }
      }
    }
  }

  /** The scan of one candidate, seen from the whole list: what it returns and how the
      used set moves on. */
  lemma CandidateStep(candidates: seq<Candidate>, context: seq<Segment>, k: nat, r: Option<seq<Evidence>>)
    requires k < |candidates| && candidates[k].confidence >= CONFIDENCE_FLOOR
    requires var used := UsedBy(candidates, context, k);
             r.None? <==> CitesUnknown(candidates[k], context, used)
                          || FreshIds(Citations(candidates[k], context), used) == []
    ensures r.Some? <==> Accepts(candidates[k], context, UsedBy(candidates, context, k))
  {
    UsedIsKnown(candidates, context, k);
    var candidate, used := candidates[k], UsedBy(candidates, context, k);
    var unused := FreshIds(Citations(candidate, context), used);
    assert unused != [] ==> unused[0] in unused;
    if CitesUnknown(candidate, context, {}) {
      assert CitesUnknown(candidate, context, used);
    }
  }

  lemma {:induction false} AcceptedIncrease(candidates: seq<Candidate>, context: seq<Segment>, n: nat, i: nat, j: nat)
    requires n <= |candidates| && i < j < |Accepted(candidates, context, n)|
    ensures Accepted(candidates, context, n)[i] < Accepted(candidates, context, n)[j]
  {
    if j < |Accepted(candidates, context, n - 1)| {
      AcceptedIncrease(candidates, context, n - 1, i, j);
    }
  }

  /** Candidate q is accepted and is the first accepted candidate to cite the id. */
  ghost predicate Takes(candidates: seq<Candidate>, context: seq<Segment>, q: nat, id: Id)
    requires q < |candidates|
  {
    && Accepts(candidates[q], context, UsedBy(candidates, context, q))
    && id in FreshIds(Citations(candidates[q], context), UsedBy(candidates, context, q))
  }

  lemma {:induction false} UsedIsTaken(candidates: seq<Candidate>, context: seq<Segment>, n: nat, id: Id)
    requires n <= |candidates|
    ensures id in UsedBy(candidates, context, n) <==> exists q: nat | q < n :: Takes(candidates, context, q, id)
  {
    if n > 0 {
      UsedIsTaken(candidates, context, n - 1, id);
      if id in UsedBy(candidates, context, n) && id !in UsedBy(candidates, context, n - 1) {
        assert Takes(candidates, context, n - 1, id);
      }
    }
  }
}
