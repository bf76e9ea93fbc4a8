/** Substring matching and whitespace splitting, as the standard string functions
    of both languages do them. */
module Text {
  import opened Domain
  import opened Sequences

  /** ASCII lower case. */
  function Lower(c: char): char {
    if 'A' <= c <= 'Z' then c + 32 as char else c
  }

  predicate StartsWithLower(s: string, prefix: string) {
    |prefix| <= |s| && forall i | 0 <= i < |prefix| :: Lower(s[i]) == prefix[i]
  }

  // ---- Non-overlapping matches ---------------------------------------------------

  predicate Occurs(s: string, pattern: string, i: int) {
    0 <= i && i + |pattern| <= |s| && s[i..i + |pattern|] == pattern
  }

  /** The first occurrence at or after a position. */
  function NextMatch(s: string, pattern: string, from: nat): (m: Option<nat>)
    ensures m.Some? ==> from <= m.value && Occurs(s, pattern, m.value)
    ensures forall i | from <= i && Occurs(s, pattern, i) :: m.Some? && m.value <= i
    decreases |s| + 1 - from
  {
    if from + |pattern| > |s| then None
    else if s[from..from + |pattern|] == pattern then Some(from)
    else NextMatch(s, pattern, from + 1)
  }

  function Stride(pattern: string): nat {
    if pattern == [] then 1 else |pattern|
  }

  /** Start positions of the left-to-right, non-overlapping matches. */
  function Matches(s: string, pattern: string, from: nat): seq<nat>
    decreases |s| + 1 - from
  {
    var m := NextMatch(s, pattern, from);
    if m.None? then [] else [m.value] + Matches(s, pattern, m.value + Stride(pattern))
  }

  function ReplaceFrom(s: string, pattern: string, replacement: string, from: nat): string
    requires pattern != [] && from <= |s|
    decreases |s| - from
  {
    var m := NextMatch(s, pattern, from);
    if m.None? then s[from..]
    else s[from..m.value] + replacement + ReplaceFrom(s, pattern, replacement, m.value + |pattern|)
  }

  lemma {:induction false} MatchesOccur(s: string, pattern: string, from: nat)
    ensures forall m | m in Matches(s, pattern, from) :: from <= m && Occurs(s, pattern, m)
    decreases |s| + 1 - from
  {
    var m := NextMatch(s, pattern, from);
    if m.Some? {
      MatchesOccur(s, pattern, m.value + Stride(pattern));
    }
  }

  lemma OccursAt(s: string, pattern: string, i: int, j: int)
    requires Occurs(s, pattern, i) && 0 <= j < |pattern|
    ensures s[i + j] == pattern[j]
  {
    assert s[i..i + |pattern|][j] == s[i + j];
  }

  lemma OccursIf(s: string, pattern: string, i: nat)
    requires i + |pattern| <= |s|
    requires forall j | 0 <= j < |pattern| :: s[i + j] == pattern[j]
    ensures Occurs(s, pattern, i)
  {
  }

  /** Every occurrence is a match or is masked by one that starts less than a
      pattern's length before it. */
  lemma {:induction false} OccurrenceCovered(s: string, pattern: string, from: nat, i: nat) returns (m: nat)
    requires from <= i && Occurs(s, pattern, i)
    ensures m in Matches(s, pattern, from) && m <= i < m + Stride(pattern)
    decreases |s| + 1 - from
  {
    m := NextMatch(s, pattern, from).value;
    var rest := Matches(s, pattern, m + Stride(pattern));
    assert Matches(s, pattern, from) == [m] + rest;
    if i >= m + Stride(pattern) {
      m := OccurrenceCovered(s, pattern, m + Stride(pattern), i);
      assert m in rest;
    }
  }

  // ---- Words -----------------------------------------------------------------------

  predicate Word(w: string, space: set<char>) {
    w != [] && forall c | c in w :: c !in space
  }

  function WordLength(s: string, space: set<char>): (n: nat)
    ensures n <= |s|
    ensures forall i | 0 <= i < n :: s[i] !in space
    ensures n < |s| ==> s[n] in space
  {
    if s == [] || s[0] in space then 0 else 1 + WordLength(s[1..], space)
  }

  /** The maximal runs of non-space characters, in order. */
  function Split(s: string, space: set<char>): (words: seq<string>)
    ensures forall w | w in words :: Word(w, space)
    decreases |s|
  {
    if s == [] then []
    else if s[0] in space then Split(s[1..], space)
    else
      var n := WordLength(s, space);
      [s[..n]] + Split(s[n..], space)
  }

  /** Without the spaces at either end. */
  function Stripped(s: string, space: set<char>): string {
    if s == [] then ""
    else if s[0] in space then Stripped(s[1..], space)
    else if s[|s| - 1] in space then Stripped(s[..|s| - 1], space)
    else s
  }

  function Join(words: seq<string>): string {
    if words == [] then ""
    else if |words| == 1 then words[0]
    else words[0] + " " + Join(words[1..])
  }

  lemma WordLengthIs(w: string, rest: string, space: set<char>)
    requires Word(w, space) && (rest != [] ==> rest[0] in space)
    ensures WordLength(w + rest, space) == |w|
  {
    var n := WordLength(w + rest, space);
    assert forall i | 0 <= i < |w| :: (w + rest)[i] == w[i];
    assert rest != [] ==> (w + rest)[|w|] == rest[0];
  }

  lemma SplitWord(w: string, rest: string, space: set<char>)
    requires Word(w, space) && (rest != [] ==> rest[0] in space)
    ensures Split(w + rest, space) == [w] + Split(rest, space)
  {
    WordLengthIs(w, rest, space);
    assert (w + rest)[0] == w[0];
    assert (w + rest)[..|w|] == w && (w + rest)[|w|..] == rest;
  }

  /** Splitting undoes joining. */
  lemma {:induction false} SplitJoin(words: seq<string>, space: set<char>)
    requires ' ' in space
    requires forall w | w in words :: Word(w, space)
    ensures Split(Join(words), space) == words
  {
    if |words| == 1 {
      SplitWord(words[0], "", space);
      assert words[0] + "" == words[0];
    } else if |words| > 1 {
      var rest := Join(words[1..]);
      SplitJoin(words[1..], space);
      assert words[0] in words;
      SplitWord(words[0], " " + rest, space);
      assert words[0] + " " + rest == words[0] + (" " + rest);
      assert (" " + rest)[1..] == rest;
    }
  }

  /** Splitting distributes over a joining space. */
  lemma {:induction false} SplitSpace(a: string, b: string, space: set<char>)
    requires ' ' in space
    ensures Split(a + " " + b, space) == Split(a, space) + Split(b, space)
    decreases |a|
  {
    var s := a + " " + b;
    if a == [] {
      assert s[1..] == b;
    } else if a[0] in space {
      SplitSpace(a[1..], b, space);
      assert s[1..] == a[1..] + " " + b;
    } else {
      var n := WordLength(a, space);
      SplitSpace(a[n..], b, space);
      var rest := a[n..] + " " + b;
      assert s == a[..n] + rest;
      SplitWord(a[..n], rest, space);
    }
  }

  /** The characters that are not spaces, in order: splitting keeps exactly these. */
  function Letters(s: string, space: set<char>): string {
    if s == [] then "" else (if s[0] in space then "" else [s[0]]) + Letters(s[1..], space)
  }

  function Concat(words: seq<string>): string {
    if words == [] then "" else words[0] + Concat(words[1..])
  }

  lemma {:induction false} LettersAppend(a: string, b: string, space: set<char>)
    ensures Letters(a + b, space) == Letters(a, space) + Letters(b, space)
  {
    if a == [] {
      assert a + b == b;
    } else {
      LettersAppend(a[1..], b, space);
      TailOfAppend(a, b);
      Associate(if a[0] in space then "" else [a[0]], Letters(a[1..], space), Letters(b, space));
    }
  }

  lemma {:induction false} LettersOfWord(w: string, space: set<char>)
    requires forall c | c in w :: c !in space
    ensures Letters(w, space) == w
  {
    if w != [] {
      assert forall c | c in w[1..] :: c in w;
      LettersOfWord(w[1..], space);
    }
  }

  lemma {:induction false} SplitKeepsLetters(s: string, space: set<char>)
    ensures Concat(Split(s, space)) == Letters(s, space)
    decreases |s|
  {
    if s != [] {
      if s[0] in space {
        SplitKeepsLetters(s[1..], space);
      } else {
        var n := WordLength(s, space);
        SplitKeepsLetters(s[n..], space);
        assert s == s[..n] + s[n..];
        LettersAppend(s[..n], s[n..], space);
        LettersOfWord(s[..n], space);
      }
    }
  }

  lemma {:induction false} JoinKeepsLetters(words: seq<string>, space: set<char>)
    requires ' ' in space && forall w | w in words :: Word(w, space)
    ensures Letters(Join(words), space) == Concat(words)
  {
    if |words| == 1 {
      assert words[0] in words;
      LettersOfWord(words[0], space);
      assert words[1..] == [];
      assert words[0] + "" == words[0];
    } else if |words| > 1 {
      assert words[0] in words;
      JoinKeepsLetters(words[1..], space);
      LettersAppend(words[0] + " ", Join(words[1..]), space);
      LettersAppend(words[0], " ", space);
      LettersOfWord(words[0], space);
    }
  }
}
