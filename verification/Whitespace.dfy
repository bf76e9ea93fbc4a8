/** Collapsing runs of spaces and trimming, over any set of space characters. */
module Whitespace {
  import opened Text

  function SpaceLength(s: string, space: set<char>): (n: nat)
    ensures n <= |s|
    ensures forall i | 0 <= i < n :: s[i] in space
    ensures n < |s| ==> s[n] !in space
  {
    if s == [] || s[0] !in space then 0 else 1 + SpaceLength(s[1..], space)
  }

  /** Each run of spaces replaced by one, everything else copied. */
  function Collapse(s: string, space: set<char>): string
    decreases |s|
  {
    if s == [] then ""
    else if s[0] in space then " " + Collapse(s[SpaceLength(s, space)..], space)
    else s[..WordLength(s, space)] + Collapse(s[WordLength(s, space)..], space)
  }

  lemma {:induction false} SplitSkips(s: string, n: nat, space: set<char>)
    requires n <= |s| && forall i | 0 <= i < n :: s[i] in space
    ensures Split(s, space) == Split(s[n..], space)
  {
    if n > 0 {
      SplitSkips(s[1..], n - 1, space);
      assert s[1..][n - 1..] == s[n..];
    } else {
      assert s[n..] == s;
    }
  }

  function LeadingSpace(s: string, space: set<char>): string {
    if s != [] && s[0] in space then " " else ""
  }

  function TrailingSpace(s: string, space: set<char>): string {
    if s != [] && s[|s| - 1] in space && Split(s, space) != [] then " " else ""
  }

  lemma TrailingAfterSpaces(s: string, space: set<char>)
    requires s != [] && s[0] in space
    ensures Split(s[SpaceLength(s, space)..], space) == Split(s, space)
    ensures TrailingSpace(s[SpaceLength(s, space)..], space) == TrailingSpace(s, space)
  {
    SplitSkips(s, SpaceLength(s, space), space);
  }

  lemma {:induction false} AllSpaceEnd(s: string, space: set<char>)
    requires s != [] && Split(s, space) == []
    ensures s[|s| - 1] in space
  {
    if |s| > 1 && s[0] in space {
      AllSpaceEnd(s[1..], space);
    }
  }

  /** What follows the first word of s is its trailing space, or more words. */
  lemma TrailingAfterWord(s: string, rest: string, space: set<char>)
    requires s != [] && s[0] !in space && rest == s[WordLength(s, space)..]
    ensures TrailingSpace(s, space) ==
            if rest != [] && Split(rest, space) == [] then " " else TrailingSpace(rest, space)
  {
    if rest == [] {
      assert s[|s| - 1] !in space;
    } else {
      assert rest[|rest| - 1] == s[|s| - 1];
      if Split(rest, space) == [] {
        AllSpaceEnd(rest, space);
      }
    }
  }

  lemma Regroup(w: string, a: string, b: string, c: string)
    ensures w + (a + b + c) == w + a + b + c
  {
  }

  lemma JoinWord(w: string, words: seq<string>)
    ensures Join([w] + words) == if words == [] then w else w + " " + Join(words)
  {
    assert ([w] + words)[1..] == words;
  }

  /** The words joined by single spaces, between these two ends. */
  predicate Framed(text: string, lead: string, words: seq<string>, trail: string) {
    text == lead + Join(words) + trail
  }

  lemma FrameSpaces(text: string, words: seq<string>, trail: string)
    requires Framed(text, "", words, trail)
    ensures Framed(" " + text, " ", words, trail)
  {
    Regroup(" ", "", Join(words), trail);
  }

  lemma FrameWord(w: string, text: string, lead: string, words: seq<string>, trail: string)
    requires Framed(text, lead, words, trail) && (words == [] || lead == " ")
    ensures Framed(w + text, "", [w] + words, if words == [] then lead + trail else trail)
  {
    JoinWord(w, words);
    Regroup(w, lead, Join(words), trail);
    assert words == [] ==> lead + Join(words) == lead;
  }

  lemma FirstSpaces(s: string, rest: string, space: set<char>)
    requires s != [] && s[0] in space && rest == s[SpaceLength(s, space)..]
    ensures Collapse(s, space) == " " + Collapse(rest, space)
    ensures LeadingSpace(s, space) == " " && LeadingSpace(rest, space) == ""
  {
  }

  lemma FirstWord(s: string, w: string, rest: string, space: set<char>)
    requires s != [] && s[0] !in space && w == s[..WordLength(s, space)] && rest == s[WordLength(s, space)..]
    ensures Collapse(s, space) == w + Collapse(rest, space) && Split(s, space) == [w] + Split(rest, space)
    ensures LeadingSpace(s, space) == "" && (rest != [] ==> LeadingSpace(rest, space) == " ")
  {
  }

  lemma NoTrail(s: string, space: set<char>)
    requires Split(s, space) == []
    ensures TrailingSpace(s, space) == "" && (LeadingSpace(s, space) == "" <==> s == [])
  {
  }

  lemma EmptySplits(space: set<char>)
    ensures Split([], space) == [] && LeadingSpace([], space) == "" && TrailingSpace([], space) == ""
  {
  }

  /** Collapsing gives the words joined by single spaces, with one at either end where
      there was any. */
  lemma {:induction false} CollapseIs(s: string, space: set<char>)
    ensures Framed(Collapse(s, space), LeadingSpace(s, space), Split(s, space), TrailingSpace(s, space))
    decreases |s|
  {
    if s == [] {
    } else if s[0] in space {
      CollapseFromSpaces(s, s[SpaceLength(s, space)..], space);
    } else {
      CollapseFromWord(s, s[..WordLength(s, space)], s[WordLength(s, space)..], space);
    }
  }

  lemma {:induction false} CollapseFromSpaces(s: string, rest: string, space: set<char>)
    requires s != [] && s[0] in space && rest == s[SpaceLength(s, space)..]
    ensures Framed(Collapse(s, space), LeadingSpace(s, space), Split(s, space), TrailingSpace(s, space))
    decreases |s|, 0
  {
    CollapseIs(rest, space);
    FirstSpaces(s, rest, space);
    TrailingAfterSpaces(s, space);
    FrameSpaces(Collapse(rest, space), Split(rest, space), TrailingSpace(rest, space));
  }

  lemma {:induction false} CollapseFromWord(s: string, w: string, rest: string, space: set<char>)
    requires s != [] && s[0] !in space && w == s[..WordLength(s, space)] && rest == s[WordLength(s, space)..]
    ensures Framed(Collapse(s, space), LeadingSpace(s, space), Split(s, space), TrailingSpace(s, space))
    decreases |s|, 0
  {
    CollapseIs(rest, space);
    FirstWord(s, w, rest, space);
    TrailingAfterWord(s, rest, space);
    var text, lead, words, trail :=
      Collapse(rest, space), LeadingSpace(rest, space), Split(rest, space), TrailingSpace(rest, space);
    if rest == [] {
      EmptySplits(space);
    } else if words == [] {
      NoTrail(rest, space);
    }
    FrameWord(w, text, lead, words, trail);
  }

  lemma {:induction false} JoinEnds(words: seq<string>, space: set<char>)
    requires forall w | w in words :: Word(w, space)
    ensures words == [] ==> Join(words) == ""
    ensures words != [] ==> var j := Join(words); j != [] && j[0] !in space && j[|j| - 1] !in space
  {
    if |words| > 1 {
      JoinEnds(words[1..], space);
      assert words[0] in words;
    } else if |words| == 1 {
      assert words[0] in words;
    }
  }

  lemma StripEnd(middle: string, space: set<char>)
    requires ' ' in space
    requires middle != [] ==> middle[0] !in space && middle[|middle| - 1] !in space
    ensures Stripped(middle, space) == middle && Stripped(middle + " ", space) == middle
  {
    assert (middle + " ")[..|middle|] == middle;
    if middle == [] {
      assert (middle + " ")[1..] == "";
    } else {
      assert (middle + " ")[0] == middle[0];
    }
  }

  lemma StripEnds(lead: string, middle: string, trail: string, space: set<char>)
    requires ' ' in space && lead in {"", " "} && trail in {"", " "}
    requires middle != [] ==> middle[0] !in space && middle[|middle| - 1] !in space
    ensures Stripped(lead + middle + trail, space) == middle
  {
    StripEnd(middle, space);
    var body := middle + trail;
    assert body == if trail == "" then middle else middle + " ";
    assert lead + middle + trail == lead + body;
    if lead == " " {
      assert (lead + body)[0] == ' ' && (lead + body)[1..] == body;
    } else {
      assert lead + body == body;
    }
  }

  /** Collapsed and trimmed, a text is its words joined by single spaces. */
  lemma NormalForm(s: string, space: set<char>)
    requires ' ' in space
    ensures Stripped(Collapse(s, space), space) == Join(Split(s, space))
  {
    CollapseIs(s, space);
    JoinEnds(Split(s, space), space);
    StripEnds(LeadingSpace(s, space), Join(Split(s, space)), TrailingSpace(s, space), space);
  }

  /** Collapsing and trimming keeps every character that is not a space, in order. */
  lemma KeepsLetters(s: string, space: set<char>)
    requires ' ' in space
    ensures Letters(Stripped(Collapse(s, space), space), space) == Letters(s, space)
  {
    NormalForm(s, space);
    SplitKeepsLetters(s, space);
    JoinKeepsLetters(Split(s, space), space);
  }
}
