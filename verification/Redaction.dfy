/** Secret redaction of job prompts. */
module Redaction {
  import opened Domain
  import opened Text
  import opened Sequences

  /** Unicode White_Space, which the standard whitespace split uses. */
  const SPACE: set<char> := {
    '\t', '\n', '\U{0B}', '\U{0C}', '\r', ' ', '\U{85}', '\U{A0}', '\U{1680}',
    '\U{2000}', '\U{2001}', '\U{2002}', '\U{2003}', '\U{2004}', '\U{2005}', '\U{2006}',
    '\U{2007}', '\U{2008}', '\U{2009}', '\U{200A}', '\U{2028}', '\U{2029}', '\U{202F}',
    '\U{205F}', '\U{3000}'}

  const MARKER := "[REDACTED_SECRET]"

  predicate Punctuation(c: char) {
    c in {'"', '\'', ',', ';', ')', '('}
  }

  function LeadLength(token: string): (n: nat)
    ensures n <= |token|
    ensures forall i | 0 <= i < n :: Punctuation(token[i])
    ensures n < |token| ==> !Punctuation(token[n])
  {
    if token == [] || !Punctuation(token[0]) then 0 else 1 + LeadLength(token[1..])
  }

  function TrimEnd(s: string): (t: string)
    ensures t <= s
    ensures t != [] ==> !Punctuation(t[|t| - 1])
    ensures forall i | |t| <= i < |s| :: Punctuation(s[i])
  {
    if s == [] || !Punctuation(s[|s| - 1]) then s else TrimEnd(s[..|s| - 1])
  }

  function Trim(token: string): string {
    TrimEnd(token[LeadLength(token)..])
  }

  function Lead(token: string): string { token[..LeadLength(token)] }

  function Trail(token: string): string { token[LeadLength(token)..][|Trim(token)|..] }

  predicate LooksSecret(trimmed: string) {
    || "sk-" <= trimmed
    || "xoxb-" <= trimmed
    || "ghp_" <= trimmed
    || "github_pat_" <= trimmed
    || "AKIA" <= trimmed
    || NextMatch(trimmed, "BEGIN_PRIVATE_KEY", 0).Some?
    || StartsWithLower(trimmed, "password=")
  }

  function RedactToken(token: string): string {
    var trimmed := Trim(token);
    if LooksSecret(trimmed) then
      SecretsAreNotEmpty(trimmed);
      ReplaceFrom(token, trimmed, MARKER, 0)
    else token
  }

  function RedactAll(tokens: seq<string>): (r: seq<string>)
    ensures |r| == |tokens|
    ensures forall i | 0 <= i < |tokens| :: r[i] == RedactToken(tokens[i])
  {
    if tokens == [] then [] else [RedactToken(tokens[0])] + RedactAll(tokens[1..])
  }

  function RedactPrompt(prompt: string): string {
    Join(RedactAll(Split(prompt, SPACE)))
  }

  lemma SpaceIs(c: char)
    ensures c in SPACE <==>
            var code := c as int;
            || 9 <= code <= 13 || code in {0x20, 0x85, 0xA0, 0x1680} || 0x2000 <= code <= 0x200A
            || code in {0x2028, 0x2029, 0x202F, 0x205F, 0x3000}
  {
    var code := c as int;
    assert c == code as char;
  }

  /** The text begins with these characters. */
  predicate Begins(text: string, start: string) {
    |start| <= |text| && forall i | 0 <= i < |start| :: text[i] == start[i]
  }

  lemma BeginsIs(text: string, start: string)
    ensures start <= text <==> Begins(text, start)
  {
  }

  predicate Banner(text: string, banner: string) {
    exists i | 0 <= i <= |text| :: Occurs(text, banner, i)
  }

  lemma BannerIs(text: string, banner: string)
    ensures NextMatch(text, banner, 0).Some? <==> Banner(text, banner)
  {
  }

  /** The text begins with the word, each letter in upper or lower case. */
  predicate BeginsEitherCase(text: string, lower: string, upper: string)
    requires |lower| == |upper|
  {
    |lower| <= |text| && forall i | 0 <= i < |lower| :: text[i] == lower[i] || text[i] == upper[i]
  }

  lemma EitherCaseIs(text: string, lower: string, upper: string)
    requires |lower| == |upper|
    requires forall i | 0 <= i < |lower| ::
               if 'a' <= lower[i] <= 'z' then upper[i] as int == lower[i] as int - 32
               else upper[i] == lower[i] && !('A' <= lower[i] <= 'Z')
    ensures StartsWithLower(text, lower) <==> BeginsEitherCase(text, lower, upper)
  {
    if |lower| <= |text| {
      forall i | 0 <= i < |lower| ensures Lower(text[i]) == lower[i] <==> text[i] == lower[i] || text[i] == upper[i] {
      }
    }
  }

  /** What counts as a secret: five token prefixes, a private key's banner anywhere, or an
      assigned password in upper or lower case. */
  lemma LooksSecretExactly(text: string)
    ensures LooksSecret(text) <==>
            || Begins(text, "sk-") || Begins(text, "xoxb-") || Begins(text, "ghp_") || Begins(text, "github_pat_")
            || Begins(text, "AKIA") || Banner(text, "BEGIN_PRIVATE_KEY")
            || BeginsEitherCase(text, "password=", "PASSWORD=")
  {
    BeginsIs(text, "sk-");
    BeginsIs(text, "xoxb-");
    BeginsIs(text, "ghp_");
    BeginsIs(text, "github_pat_");
    BeginsIs(text, "AKIA");
    BannerIs(text, "BEGIN_PRIVATE_KEY");
    EitherCaseIs(text, "password=", "PASSWORD=");
  }

  lemma SecretsAreNotEmpty(trimmed: string)
    requires LooksSecret(trimmed)
    ensures trimmed != []
  {
  }

  /** A trimmed token occurs in its token only once, between its punctuation. */
  lemma TrimmedOccursOnce(token: string, i: int)
    requires Trim(token) != [] && Occurs(token, Trim(token), i)
    ensures i == |Lead(token)|
  {
    var lead, n := LeadLength(token), |Trim(token)|;
    assert Trim(token)[0] == token[lead];
    OccursAt(token, Trim(token), i, 0);
    OccursAt(token, Trim(token), i, n - 1);
    assert forall j | lead + n <= j < |token| :: token[j] == token[lead..][j - lead];
  }

  lemma ReplaceTrimmed(token: string)
    requires Trim(token) != []
    ensures ReplaceFrom(token, Trim(token), MARKER, 0) == Lead(token) + MARKER + Trail(token)
  {
    var lead, trimmed := LeadLength(token), Trim(token);
    var n := |trimmed|;
    assert Occurs(token, trimmed, lead);
    TrimmedOccursOnce(token, NextMatch(token, trimmed, 0).value);
    var next := NextMatch(token, trimmed, lead + n);
    if next.Some? {
      TrimmedOccursOnce(token, next.value);
    }
    assert token[lead + n..] == Trail(token);
    assert ReplaceFrom(token, trimmed, MARKER, lead + n) == token[lead + n..];
    assert token[0..lead] == Lead(token);
  }

  lemma TokenParts(token: string)
    ensures token == Lead(token) + Trim(token) + Trail(token)
  {
    assert token[LeadLength(token)..] == Trim(token) + Trail(token);
    assert token == token[..LeadLength(token)] + token[LeadLength(token)..];
  }

  lemma TokenEnds(token: string)
    ensures forall c | c in Lead(token) + Trail(token) :: Punctuation(c)
    ensures Trim(token) != [] ==> !Punctuation(Trim(token)[0]) && !Punctuation(Trim(token)[|Trim(token)| - 1])
  {
    var lead, rest := LeadLength(token), token[LeadLength(token)..];
    forall c | c in Lead(token) + Trail(token) ensures Punctuation(c) {
      if c in Lead(token) {
        var i :| 0 <= i < lead && token[i] == c;
      } else {
        var i :| 0 <= i < |Trail(token)| && Trail(token)[i] == c;
        assert rest[|Trim(token)| + i] == c;
      }
    }
    assert Trim(token) != [] ==> Trim(token)[0] == rest[0] == token[lead];
  }

  /** A redacted token is its own punctuation around the marker; any other token
      comes out unchanged. */
  lemma RedactShape(token: string)
    ensures token == Lead(token) + Trim(token) + Trail(token)
    ensures forall c | c in Lead(token) + Trail(token) :: c == '"' || c == '\'' || c == ',' || c == ';' || c in "()"
    ensures Trim(token) != [] ==> var t := Trim(token); t[0] !in "\"',;()" && t[|t| - 1] !in "\"',;()"
    ensures RedactToken(token) ==
            if LooksSecret(Trim(token)) then Lead(token) + "[REDACTED_SECRET]" + Trail(token) else token
  {
    TokenParts(token);
    TokenEnds(token);
    if LooksSecret(Trim(token)) {
      SecretsAreNotEmpty(Trim(token));
      ReplaceTrimmed(token);
    }
  }

  lemma {:induction false} LeadOfPunctuated(lead: string, core: string)
    requires forall i | 0 <= i < |lead| :: Punctuation(lead[i])
    requires core != [] && !Punctuation(core[0])
    ensures LeadLength(lead + core) == |lead|
  {
    if lead == [] {
      assert lead + core == core;
    } else {
      LeadOfPunctuated(lead[1..], core);
      assert (lead + core)[1..] == lead[1..] + core;
    }
  }

  lemma {:induction false} TrimEndOfPunctuated(core: string, trail: string)
    requires forall i | 0 <= i < |trail| :: Punctuation(trail[i])
    requires core != [] && !Punctuation(core[|core| - 1])
    ensures TrimEnd(core + trail) == core
  {
    if trail == [] {
      assert core + trail == core;
    } else {
      var init := trail[..|trail| - 1];
      TrimEndOfPunctuated(core, init);
      assert (core + trail)[..|core + trail| - 1] == core + init;
    }
  }

  lemma MarkerIsNoSecret()
    ensures !LooksSecret(MARKER)
  {
    assert |MARKER| == 17 && |"BEGIN_PRIVATE_KEY"| == 17;
    assert MARKER[0] == '[' && Lower(MARKER[0]) == '[';
    assert MARKER[0..17][0] != "BEGIN_PRIVATE_KEY"[0];
    assert !Occurs(MARKER, "BEGIN_PRIVATE_KEY", 0);
    assert "password="[0] == 'p';
  }

  lemma TrimOfPunctuated(lead: string, trail: string)
    requires forall i | 0 <= i < |lead| :: Punctuation(lead[i])
    requires forall i | 0 <= i < |trail| :: Punctuation(trail[i])
    ensures Trim(lead + (MARKER + trail)) == MARKER
  {
    LeadOfPunctuated(lead, MARKER + trail);
    TrimEndOfPunctuated(MARKER, trail);
    assert (lead + (MARKER + trail))[|lead|..] == MARKER + trail;
  }

  /** A secret's trimmed form, once redacted, is the marker. */
  lemma RedactedTrim(token: string)
    requires LooksSecret(Trim(token))
    ensures Trim(RedactToken(token)) == MARKER
  {
    var lead, trail := Lead(token), Trail(token);
    RedactShape(token);
    Associate(lead, MARKER, trail);
    forall i | 0 <= i < |trail| ensures Punctuation(trail[i]) {
      assert trail[i] == token[LeadLength(token)..][|Trim(token)| + i];
    }
    TrimOfPunctuated(lead, trail);
  }

  /** No redacted token still looks like a secret, and redacting again changes
      nothing. */
  lemma RedactTokenFixed(token: string)
    ensures !LooksSecret(Trim(RedactToken(token)))
    ensures RedactToken(RedactToken(token)) == RedactToken(token)
  {
    if LooksSecret(Trim(token)) {
      RedactedTrim(token);
      MarkerIsNoSecret();
    }
    RedactShape(RedactToken(token));
  }

  lemma MarkerIsWord()
    ensures Word(MARKER, SPACE)
  {
    forall c | c in MARKER ensures c !in SPACE {
      assert 'A' <= c <= '_';
    }
  }

  lemma WordParts(lead: string, core: string, trail: string, marker: string, space: set<char>)
    requires Word(lead + core + trail, space) && Word(marker, space)
    ensures Word(lead + marker + trail, space)
  {
    forall c | c in lead + marker + trail ensures c !in space {
      assert c in lead || c in marker || c in trail;
      assert c in lead || c in trail ==> c in lead + core + trail;
    }
  }

  lemma RedactedWord(token: string)
    requires Word(token, SPACE)
    ensures Word(RedactToken(token), SPACE)
  {
    RedactShape(token);
    MarkerIsWord();
    WordParts(Lead(token), Trim(token), Trail(token), MARKER, SPACE);
  }

  /** The prompt keeps its tokens, in number and order, each redacted. */
  lemma {:induction false} RedactPromptTokens(prompt: string)
    ensures Split(RedactPrompt(prompt), SPACE) == RedactAll(Split(prompt, SPACE))
    ensures forall w | w in Split(RedactPrompt(prompt), SPACE) :: !LooksSecret(Trim(w))
  {
    var tokens := Split(prompt, SPACE);
    forall w | w in RedactAll(tokens) ensures Word(w, SPACE) && !LooksSecret(Trim(w)) {
      var i :| 0 <= i < |tokens| && RedactAll(tokens)[i] == w;
      assert tokens[i] in tokens;
      RedactTokenFixed(tokens[i]);
      RedactedWord(tokens[i]);
    }
    SplitJoin(RedactAll(tokens), SPACE);
  }

  /** Redaction is idempotent, so the second pass at dispatch changes nothing. */
  lemma {:induction false} RedactPromptIdempotent(prompt: string)
    ensures RedactPrompt(RedactPrompt(prompt)) == RedactPrompt(prompt)
  {
    RedactPromptTokens(prompt);
    var tokens := Split(prompt, SPACE);
    forall i | 0 <= i < |tokens| ensures RedactAll(RedactAll(tokens))[i] == RedactAll(tokens)[i] {
      RedactTokenFixed(tokens[i]);
    }
    assert RedactAll(RedactAll(tokens)) == RedactAll(tokens);
  }
}
