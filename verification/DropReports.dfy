/** Drop accounting end to end: from the helper's cumulative reports, delivered in any
    order and any number of times, to the counter the projection shows. */
module DropReports {
  import opened Domain
  import opened Replay
  import opened CaptureLane

  /** A count that does not fit 32 bits fails to parse, and its line is ignored. */
  const U32: nat := 0x1_0000_0000

  function CountIn(b: Body, lane: AudioLane): seq<nat> {
    match b
    case BuffersDropped(Good(info)) => if info.lane == lane then [info.count] else []
    case _ => []
  }

  /** The drop counts the ledger holds for a lane. */
  function Counts(es: seq<Event>, lane: AudioLane): seq<nat> {
    if es == [] then [] else Counts(es[..|es| - 1], lane) + CountIn(es[|es| - 1].body, lane)
  }

  ghost predicate Greatest(n: nat, ns: seq<nat>) {
    && (forall m | m in ns :: m <= n)
    && (if ns == [] then n == 0 else n in ns)
  }

  lemma GreatestExtend(n: nat, ns: seq<nat>, m: nat)
    requires Greatest(n, ns)
    ensures Greatest(Max(n, m), ns + [m])
  {
    assert (ns + [m])[|ns|] == m;
    assert forall k | k in ns + [m] :: k in ns || k == m;
    assert n in ns ==> n in ns + [m];
  }

  lemma DroppedStep(s: SourceState, b: Body, lane: AudioLane)
    ensures var before := LaneOf(s, lane).dropped;
            var counts := CountIn(b, lane);
            LaneOf(SourceStep(s, b), lane).dropped == if counts == [] then before else Max(before, counts[0])
  {
  }

  /** Replaying the maximum means: the projected count is the greatest ever reported. */
  lemma {:induction false} DroppedIsGreatest(es: seq<Event>, lane: AudioLane)
    ensures Greatest(LaneOf(SourceAfter(es), lane).dropped, Counts(es, lane))
  {
    if es != [] {
      var init, body := es[..|es| - 1], es[|es| - 1].body;
      DroppedIsGreatest(init, lane);
      DroppedStep(SourceAfter(init), body, lane);
      var before := LaneOf(SourceAfter(init), lane).dropped;
      if CountIn(body, lane) == [] {
        assert Counts(es, lane) == Counts(init, lane);
      } else {
        GreatestExtend(before, Counts(init, lane), CountIn(body, lane)[0]);
        assert CountIn(body, lane) == [CountIn(body, lane)[0]];
      }
    }
  }

  /** Each report that parses arrived at least once, and nothing else did. */
  ghost predicate Delivered(counts: seq<nat>, reports: seq<nat>) {
    forall n :: n in counts <==> n in reports && n < U32
  }

  lemma TotalIffFits(n: nat, counts: seq<nat>, reports: seq<nat>)
    requires Greatest(n, counts) && Delivered(counts, reports)
    requires Rising(reports) && (reports != [] ==> reports[0] > 0)
    ensures n == Last(reports) <==> Last(reports) < U32
  {
    assert counts != [] ==> n in reports && n < U32;
    if reports != [] {
      var total := Last(reports);
      assert total >= reports[0];
      assert total in reports;
      forall m | m in reports ensures m <= total {
        var i :| 0 <= i < |reports| && reports[i] == m;
      }
      assert total < U32 ==> total in counts;
    }
  }

  lemma DeriveKeepsLanes(s: SourceState, transcript: seq<Segment>, lane: AudioLane)
    ensures LaneOf(Derive(s, transcript), lane) == LaneOf(s, lane)
  {
  }

  /** Once a lane's consumer is done and no displaced buffer went uncounted, the
      projected drop count is the true total, in whatever order and however often the
      reports were delivered, if and only if the total fits the 32-bit field. */
  lemma ProjectedDropsAreTotal(steps: seq<Step>, es: seq<Event>, lane: AudioLane)
    requires Feasible(steps) && After(steps).consumer == Done && After(steps).stragglers == 0
    requires Delivered(Counts(es, lane), After(steps).reports)
    ensures LaneOf(Derive(SourceAfter(es), Finals(es)), lane).dropped == After(steps).dropped
            <==> After(steps).dropped < 0x1_0000_0000
  {
    CountAlways(steps);
    DroppedIsGreatest(es, lane);
    DeriveKeepsLanes(SourceAfter(es), Finals(es), lane);
    TotalIffFits(LaneOf(SourceAfter(es), lane).dropped, Counts(es, lane), After(steps).reports);
  }
}
