/** The capture reader and the one-in-flight automatic proposer, interleaved. */
module Proposer {

  // ---- When the model is called ---------------------------------------------------

  function AtLeastOne(n: nat): nat { if n == 0 then 1 else n }

  /** Fire at the two-segment floor, then once every `debounce` segments. */
  predicate ShouldRun(segments: nat, debounce: nat) {
    segments >= 2 && (segments - 2) % AtLeastOne(debounce) == 0
  }

  /** How many of the transcript lengths up to n call the model. */
  function GateCount(n: nat, debounce: nat): nat {
    if n == 0 then 0 else GateCount(n - 1, debounce) + (if ShouldRun(n, debounce) then 1 else 0)
  }

  lemma GateCountStep(n: nat, debounce: nat, ran: bool)
    requires ran <==> ShouldRun(n + 1, debounce)
    ensures GateCount(n + 1, debounce) == GateCount(n, debounce) + (if ran then 1 else 0)
  {
  }

  lemma DivStep(a: nat, d: nat)
    requires d > 0
    ensures (a + 1) / d == a / d + (if (a + 1) % d == 0 then 1 else 0)
  {
    var q, r := a / d, a % d;
    assert a == q * d + r;
    if r + 1 == d {
      assert a + 1 == (q + 1) * d;
      DivUnique(a + 1, d, q + 1, 0);
    } else {
      DivUnique(a + 1, d, q, r + 1);
    }
  }

  lemma SmallMultiple(x: int, d: int)
    requires 0 < d && -d < x * d < d
    ensures x == 0
  {
    assert x >= 1 ==> x * d >= d;
    assert x <= -1 ==> x * d <= -d;
  }

  lemma DivUnique(a: nat, d: nat, q: nat, r: nat)
    requires d > 0 && r < d && a == q * d + r
    ensures a / d == q && a % d == r
  {
    var x := q - a / d;
    assert x * d == q * d - a / d * d;
    SmallMultiple(x, d);
  }

  lemma {:induction false} GateCountIs(n: nat, debounce: nat)
    ensures GateCount(n, debounce) == if n < 2 then 0 else (n - 2) / (if debounce == 0 then 1 else debounce) + 1
  {
    var d := AtLeastOne(debounce);
    if n == 2 {
      GateCountIs(1, debounce);
      DivUnique(0, d, 0, 0);
    } else if n > 2 {
      GateCountIs(n - 1, debounce);
      DivStep(n - 3, d);
    } else if n == 1 {
      GateCountIs(0, debounce);
    }
  }

  /** The calls made from an empty transcript on, in closed form. */
  predicate CallsFromEmpty(calls: nat, n: nat, debounce: nat) {
    calls == if n < 2 then 0 else (n - 2) / (if debounce == 0 then 1 else debounce) + 1
  }

  lemma CallsFromEmptyAre(calls: nat, n: nat, debounce: nat)
    requires GateCount(0, debounce) + calls == GateCount(n, debounce)
    ensures CallsFromEmpty(calls, n, debounce)
  {
    GateCountIs(n, debounce);
  }

  // ---- The interleaving -------------------------------------------------------------

  /** The reader is between lines, or has appended a final and not yet swapped the
      in-flight flag. */
  datatype Reader = Between | Appended

  /** The automatic run: none, spawned but its snapshot not yet taken, or past it. */
  datatype Run = Absent | Spawned | Deciding

  datatype State = State(
    length: nat,        // finals in the transcript
    reader: Reader,
    proposing: bool,    // the in-flight flag
    run: Run,
    spawned: nat,       // history: runs spawned, less those that failed before their snapshot
    seen: seq<nat>)     // history: transcript length each run snapshotted

  datatype Step =
    | ReadFinal       // the reader appends a final under the store lock
    | SwapAndSpawn    // the flag was clear: set it and spawn a run
    | SwapBusy        // the flag was set: nothing to do
    | Snapshot        // the run projects the meeting under the store lock
    | ProjectFails    // the meeting does not decode: the run ends and clears the flag
    | FinishRun       // the run has recorded its decision, or failed since, and clears the flag
    | PanicRun        // the run panics: the flag stays set
    | OtherFinal      // some other writer appends a final

  const INITIAL := State(0, Between, false, Absent, 0, [])

  predicate Enabled(s: State, step: Step) {
    match step
    case ReadFinal => s.reader == Between
    case SwapAndSpawn => s.reader == Appended && !s.proposing
    case SwapBusy => s.reader == Appended && s.proposing
    case Snapshot => s.run == Spawned
    case ProjectFails => s.run == Spawned
    case FinishRun => s.run == Deciding
    case PanicRun => s.run != Absent
    case OtherFinal => true
  }

  function Do(s: State, step: Step): State
    requires Enabled(s, step)
  {
    match step
    case ReadFinal => s.(length := s.length + 1, reader := Appended)
    case SwapAndSpawn => s.(reader := Between, proposing := true, run := Spawned, spawned := s.spawned + 1)
    case SwapBusy => s.(reader := Between)
    case Snapshot => s.(run := Deciding, seen := s.seen + [s.length])
    case ProjectFails => s.(run := Absent, proposing := false, spawned := if s.spawned == 0 then 0 else s.spawned - 1)
    case FinishRun => s.(run := Absent, proposing := false)
    case PanicRun => s.(run := Absent)
    case OtherFinal => s.(length := s.length + 1)
  }

  ghost predicate Feasible(steps: seq<Step>)
    decreases |steps|, 0
  {
    steps == []
    || (Feasible(steps[..|steps| - 1]) && Enabled(After(steps[..|steps| - 1]), steps[|steps| - 1]))
  }

  ghost function After(steps: seq<Step>): State
    requires Feasible(steps)
    decreases |steps|, 1
  {
    if steps == [] then INITIAL else Do(After(steps[..|steps| - 1]), steps[|steps| - 1])
  }

  /** Lengths never go back, and from one run to the next but one they grow. */
  ghost predicate Spaced(seen: seq<nat>) {
    && (forall i | 0 <= i < |seen| - 1 :: seen[i] <= seen[i + 1])
    && (forall i | 0 <= i < |seen| - 2 :: seen[i] < seen[i + 2])
  }

  ghost predicate Inv(s: State) {
    && Spaced(s.seen)
    && (forall i | 0 <= i < |s.seen| :: s.seen[i] <= s.length)
    && (s.run != Absent ==> s.proposing)
    && (s.run == Spawned ==> s.spawned == |s.seen| + 1)
    && (s.run == Deciding ==> s.spawned == |s.seen|)
    && (!s.proposing ==> s.spawned == |s.seen|)
    && |s.seen| <= s.spawned <= |s.seen| + 1
    // an unswapped final came after the snapshot of the run before the last spawned
    && (s.reader == Appended && s.spawned >= 2 ==> s.seen[s.spawned - 2] < s.length)
    // so a spawned run will see more than the run before its predecessor
    && (s.run == Spawned && s.spawned >= 3 ==> s.seen[s.spawned - 3] < s.length)
  }

  lemma InvStep(s: State, step: Step)
    requires Inv(s) && Enabled(s, step)
    ensures Inv(Do(s, step))
  {
  }

  lemma {:induction false} InvAlways(steps: seq<Step>)
    requires Feasible(steps)
    ensures Inv(After(steps))
  {
    if steps != [] {
      InvAlways(steps[..|steps| - 1]);
      InvStep(After(steps[..|steps| - 1]), steps[|steps| - 1]);
    }
  }

  function Times(seen: seq<nat>, length: nat): nat {
    if seen == [] then 0
    else Times(seen[..|seen| - 1], length) + (if seen[|seen| - 1] == length then 1 else 0)
  }

  function ModelCalls(seen: seq<nat>, debounce: nat): nat {
    if seen == [] then 0
    else ModelCalls(seen[..|seen| - 1], debounce) + (if ShouldRun(seen[|seen| - 1], debounce) then 1 else 0)
  }

  lemma {:induction false} TimesAtMostTwo(seen: seq<nat>, length: nat)
    requires Spaced(seen)
    ensures Times(seen, length) <= 2
    ensures seen != [] && seen[|seen| - 1] < length ==> Times(seen, length) == 0
    ensures |seen| >= 1 && (|seen| >= 2 ==> seen[|seen| - 2] < length) ==> Times(seen, length) <= 1
  {
    if seen != [] {
      TimesAtMostTwo(seen[..|seen| - 1], length);
    }
  }

  /** Two runs at each length that calls the model is the worst there can be. */
  lemma {:induction false} CallsBounded(seen: seq<nat>, debounce: nat)
    requires Spaced(seen)
    ensures seen == [] ==> ModelCalls(seen, debounce) == 0
    ensures seen != [] ==> ModelCalls(seen, debounce) <= 2 * GateCount(seen[|seen| - 1], debounce)
    ensures seen != [] && (|seen| >= 2 ==> seen[|seen| - 2] < seen[|seen| - 1]) ==>
              ModelCalls(seen, debounce)
              <= 2 * GateCount(seen[|seen| - 1], debounce) - (if ShouldRun(seen[|seen| - 1], debounce) then 1 else 0)
  {
    if seen != [] {
      var init, last := seen[..|seen| - 1], seen[|seen| - 1];
      CallsBounded(init, debounce);
      if init != [] && init[|init| - 1] < last {
        GateCountGrows(init[|init| - 1], last, debounce);
      }
    }
  }

  lemma {:induction false} GateCountGrows(a: nat, b: nat, debounce: nat)
    requires a < b
    ensures GateCount(a, debounce) + (if ShouldRun(b, debounce) then 1 else 0) <= GateCount(b, debounce)
  {
    if a + 1 < b {
      GateCountGrows(a, b - 1, debounce);
    }
  }

  lemma {:induction false} GateCountMonotone(a: nat, b: nat, debounce: nat)
    requires a <= b
    ensures GateCount(a, debounce) <= GateCount(b, debounce)
  {
    if a < b {
      GateCountGrows(a, b, debounce);
    }
  }

  /** Over every interleaving: a transcript length is snapshotted by at most two runs,
      each run sees a longer transcript than the run before the previous one, and n
      finals cause at most 2 * ((n - 2) / d + 1) model calls. */
  lemma ModelCallsBounded(steps: seq<Step>, debounce: nat)
    requires Feasible(steps)
    ensures var s := After(steps);
            && (forall length :: Times(s.seen, length) <= 2)
            && (forall i | 0 <= i < |s.seen| - 2 :: s.seen[i] < s.seen[i + 2])
            && ModelCalls(s.seen, debounce)
               <= if s.length < 2 then 0 else 2 * ((s.length - 2) / (if debounce == 0 then 1 else debounce) + 1)
  {
    InvAlways(steps);
    var s := After(steps);
    forall length ensures Times(s.seen, length) <= 2 {
      TimesAtMostTwo(s.seen, length);
    }
    CallsBounded(s.seen, debounce);
    if s.seen != [] {
      GateCountMonotone(s.seen[|s.seen| - 1], s.length, debounce);
    }
    GateCountIs(s.length, debounce);
  }

  /** The bound of two is met: the reader appends a final, the earlier run snapshots it
      and finishes, and only then does the reader's swap spawn another run. */
  lemma SameLengthTwice()
    ensures var steps := [ReadFinal, SwapAndSpawn, ReadFinal, Snapshot, FinishRun, SwapAndSpawn, Snapshot];
            Feasible(steps) && After(steps).seen == [2, 2]
  {
    var a := [ReadFinal];
    var b := a + [SwapAndSpawn];
    var c := b + [ReadFinal];
    var d := c + [Snapshot];
    var e := d + [FinishRun];
    var f := e + [SwapAndSpawn];
    var g := f + [Snapshot];
    assert a[..0] == [] && b[..1] == a && c[..2] == b && d[..3] == c && e[..4] == d && f[..5] == e && g[..6] == f;
    assert Feasible(a) && After(a) == State(1, Appended, false, Absent, 0, []);
    assert Feasible(b) && After(b) == State(1, Between, true, Spawned, 1, []);
    assert Feasible(c) && After(c) == State(2, Appended, true, Spawned, 1, []);
    assert Feasible(d) && After(d) == State(2, Appended, true, Deciding, 1, [2]);
    assert Feasible(e) && After(e) == State(2, Appended, false, Absent, 1, [2]);
    assert Feasible(f) && After(f) == State(2, Between, true, Spawned, 2, [2]);
    assert Feasible(g) && After(g).seen == [2, 2];
    assert g == [ReadFinal, SwapAndSpawn, ReadFinal, Snapshot, FinishRun, SwapAndSpawn, Snapshot];
  }
}
