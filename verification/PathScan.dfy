/** Recognising a worker process by the job directory on its command line. */
module PathScan {
  import opened Domain
  import opened Text

  predicate IsBoundary(c: char) {
    c in {' ', '\t', '\n', '\U{0C}', '\r', '\'', '"', '=', ':', ',', '/', '\\'}
  }

  /** The path stands at i with a boundary or an end of the command on each side. */
  predicate Delimited(command: string, path: string, i: int) {
    && Occurs(command, path, i)
    && (i == 0 || IsBoundary(command[i - 1]))
    && (i + |path| == |command| || IsBoundary(command[i + |path|]))
  }

  /** A byte that ends a path: ASCII white space other than the vertical tab, a quote of
      either kind, or one of = : , / and the backslash. */
  predicate EndsPath(c: char) {
    var code := c as int;
    || code == 32 || code == 9 || code == 10 || code == 12 || code == 13
    || code == 39 || code == 34 || code == 61 || code == 58 || code == 44 || code == 47 || code == 92
  }

  /** The path stands in the command at i, and neither continues it on either side. */
  predicate StandsAlone(command: string, path: string, i: nat) {
    && i + |path| <= |command| && command[i..i + |path|] == path
    && (i > 0 ==> EndsPath(command[i - 1])) && (i + |path| < |command| ==> EndsPath(command[i + |path|]))
  }

  lemma DelimitedAlone(command: string, path: string, i: nat)
    ensures Delimited(command, path, i) <==> StandsAlone(command, path, i)
  {
  }

  predicate ContainsPath(command: string, path: string) {
    exists m | m in Matches(command, path, 0) :: Delimited(command, path, m)
  }

  /** Shifted by k, just after a boundary, the path overlaps itself. */
  predicate OverlapsAt(path: string, k: nat) {
    0 < k < |path| && path[k..] == path[..|path| - k] && IsBoundary(path[k - 1])
  }

  ghost predicate NoBoundaryOverlap(path: string) {
    forall k | 0 < k < |path| :: !OverlapsAt(path, k)
  }

  /** Two occurrences less than a path's length apart make the path overlap itself. */
  lemma OverlappingOccurrences(command: string, path: string, m: int, i: int)
    requires Occurs(command, path, m) && Occurs(command, path, i) && m < i < m + |path|
    ensures IsBoundary(command[i - 1]) ==> OverlapsAt(path, i - m)
  {
    var k := i - m;
    forall j | 0 <= j < |path| - k ensures path[k + j] == path[j] {
      OccursAt(command, path, m, k + j);
      OccursAt(command, path, i, j);
    }
    OccursAt(command, path, m, k - 1);
  }

  lemma ScanComplete(command: string, path: string, i: nat)
    requires NoBoundaryOverlap(path) && Delimited(command, path, i)
    ensures ContainsPath(command, path)
  {
    var m := OccurrenceCovered(command, path, 0, i);
    MatchesOccur(command, path, 0);
    if m < i {
      OverlappingOccurrences(command, path, m, i);
    }
  }

  lemma OverlapOccurs(command: string, path: string, k: nat, x: char)
    requires 0 < k < |path| && path[k..] == path[..|path| - k] && command == [x] + path[..k] + path
    ensures Occurs(command, path, 1)
  {
    forall j | 0 <= j < |path| ensures command[1 + j] == path[j] {
      assert j >= k ==> path[k..][j - k] == path[..|path| - k][j - k];
    }
    OccursIf(command, path, 1);
  }

  lemma EndOccurs(command: string, path: string, k: nat, x: char)
    requires 0 < k < |path| && command == [x] + path[..k] + path
    ensures Occurs(command, path, 1 + k) && command[k] == path[k - 1]
  {
    OccursIf(command, path, 1 + k);
  }

  lemma StartDiffers(command: string, path: string)
    requires path != [] && command != [] && command[0] != path[0]
    ensures !Occurs(command, path, 0)
  {
    if Occurs(command, path, 0) {
      OccursAt(command, path, 0, 0);
    }
  }

  /** With such an overlap there is a command line on which the scan misses a
      delimited occurrence: a match that fails its boundary test hides it. */
  lemma ScanMisses(path: string, k: nat) returns (command: string)
    requires OverlapsAt(path, k)
    ensures StandsAlone(command, path, 1 + k) && !ContainsPath(command, path)
  {
    var x := if path[0] == 'x' then 'y' else 'x';
    command := [x] + path[..k] + path;
    OverlapOccurs(command, path, k, x);
    EndOccurs(command, path, k, x);
    StartDiffers(command, path);
    FirstMatchMasks(command, path);
    assert !IsBoundary(x);
    assert !Delimited(command, path, 1);
    DelimitedAlone(command, path, 1 + k);
  }

  lemma FirstMatchMasks(command: string, path: string)
    requires path != [] && Occurs(command, path, 1) && !Occurs(command, path, 0)
    requires |command| < 1 + 2 * |path|
    ensures Matches(command, path, 0) == [1]
  {
    assert NextMatch(command, path, 0) == Some(1);
    assert NextMatch(command, path, 1 + |path|).None?;
    assert Matches(command, path, 1 + |path|) == [];
  }

  lemma ScanFinds(command: string, path: string)
    requires NoBoundaryOverlap(path)
    ensures ContainsPath(command, path) <==> exists i: nat :: StandsAlone(command, path, i)
  {
    if m :| m in Matches(command, path, 0) && Delimited(command, path, m) {
      DelimitedAlone(command, path, m);
    }
    if i: nat :| StandsAlone(command, path, i) {
      DelimitedAlone(command, path, i);
      ScanComplete(command, path, i);
    }
  }

  /** The exact condition: the scan finds a path that stands alone whenever there is one,
      on every command line, if and only if the path has no self-overlap that starts just
      after a boundary byte. */
  lemma ScanExact(path: string)
    ensures (forall command :: ContainsPath(command, path) <==> exists i: nat :: StandsAlone(command, path, i))
            <==> NoBoundaryOverlap(path)
  {
    if NoBoundaryOverlap(path) {
      forall command ensures ContainsPath(command, path) <==> exists i: nat :: StandsAlone(command, path, i) {
        ScanFinds(command, path);
      }
    } else {
      var k :| 0 < k < |path| && OverlapsAt(path, k);
      var command := ScanMisses(path, k);
      assert StandsAlone(command, path, 1 + k) && !ContainsPath(command, path);
    }
  }

  /** What a caller can check: an absolute path without two adjacent boundary bytes has no
      such overlap. */
  lemma AbsolutePathsAreSafe(path: string)
    requires path != [] && path[0] == '/'
    requires forall i | 0 < i < |path| :: !(IsBoundary(path[i - 1]) && IsBoundary(path[i]))
    ensures NoBoundaryOverlap(path)
  {
    forall k | 0 < k < |path| ensures !OverlapsAt(path, k) {
      assert path[k..][0] == path[k] && path[..|path| - k][0] == path[0];
    }
  }
}
