/**
 * `_extract_text_to_continue` and `_extract_prompt` of the chatbot: a list of regular
 * expressions is tried in order, each with `re.search` (leftmost match, case-insensitive,
 * `.` matching newlines), and the stripped first group of the first one that matches is
 * the answer; `""` when none matches.
 *
 * Two shapes of pattern occur. `"([^"]+)"` (and the same with `'`) matches at the first
 * quote that is followed by a non-empty run of other characters and a closing quote.
 * `phrase:?\s*(.+?)(?:\n|$)` matches after the first occurrence of the phrase that is not
 * at the very end of the message; its group runs from after the optional colon and the
 * whitespace to the end of that line.
 */
module Extraction {
  import opened PyStr
  import opened Wrappers

  /** The two shapes of pattern. */
  datatype Pattern = Quoted(quote: char) | After(phrase: string)

  /** The patterns of `_extract_text_to_continue`, in order. */
  const ContinuePatterns: seq<Pattern> :=
    [Quoted('"'), Quoted('\''), After("continue this"), After("complete this"), After("finish this")]

  /** The patterns of `_extract_prompt`, in order. */
  const PromptPatterns: seq<Pattern> :=
    [Quoted('"'), Quoted('\''), After("about"), After("write about"), After("generate")]

  /** Index of the first `c` in `s`, or `|s|`. */
  function Find(s: string, c: char): (k: nat)
    ensures k <= |s|
    ensures k < |s| ==> s[k] == c
    ensures forall i :: 0 <= i < k ==> s[i] != c
    decreases |s|
  {
    if s == [] || s[0] == c then 0 else 1 + Find(s[1..], c)
  }

  // ----- quoted text -----

  /** The quoted pattern matches at `i` with group `g`: a quote, `g` free of quotes and not empty, a quote. */
  predicate QuotedMatch(s: string, q: char, i: int, g: string)
  {
    0 <= i && i + |g| + 1 < |s| && s[i] == q && g != [] && q !in g &&
    s[i + 1..i + 1 + |g|] == g && s[i + 1 + |g|] == q
  }

  /** A quote that the next character does not close, with another quote somewhere after it. */
  predicate QuoteOpensAt(s: string, q: char, i: int)
  {
    0 <= i && i + 1 < |s| && s[i] == q && s[i + 1] != q && Find(s[i + 1..], q) < |s| - i - 1
  }

  /** The group of a match at `i`: up to the next quote. */
  function QuotedGroup(s: string, q: char, i: int): string
    requires QuoteOpensAt(s, q, i)
  {
    s[i + 1..i + 1 + Find(s[i + 1..], q)]
  }

  /** The pattern matches at `i` exactly when a quote opens there, and its group is then unique. */
  lemma QuotedMatchIsOpening(s: string, q: char, i: int, g: string)
    ensures QuotedMatch(s, q, i, g) <==> QuoteOpensAt(s, q, i) && g == QuotedGroup(s, q, i)
  {
    if QuotedMatch(s, q, i, g) {
      var t := s[i + 1..];
      assert forall k :: 0 <= k < |g| ==> t[k] == g[k];
      assert t[|g|] == q;
      var f := Find(t, q);
      assert f == |g|;
    }
    if QuoteOpensAt(s, q, i) && g == QuotedGroup(s, q, i) {
      var t := s[i + 1..];
      var f := Find(t, q);
      assert f > 0 by { assert t[0] == s[i + 1]; }
      assert q !in g by {
        forall k | 0 <= k < |g| ensures g[k] != q { assert g[k] == t[k]; }
      }
    }
  }

  /** `re.search` of the quoted pattern from position `i` on: where the leftmost match starts. */
  function FindQuote(s: string, q: char, i: nat): (r: Option<nat>)
    ensures r.Some? ==> i <= r.value < |s| && QuoteOpensAt(s, q, r.value)
    decreases |s| - i
  {
    if i >= |s| then None
    else if QuoteOpensAt(s, q, i) then Some(i)
    else FindQuote(s, q, i + 1)
  }

  /** The search finds the leftmost opening quote at or after `i`, and nothing when there is none. */
  lemma {:induction false} FindQuoteLeftmost(s: string, q: char, i: nat)
    ensures var r := FindQuote(s, q, i);
      (r.None? <==> forall j :: i <= j < |s| ==> !QuoteOpensAt(s, q, j)) &&
      (r.Some? ==> forall k :: i <= k < r.value ==> !QuoteOpensAt(s, q, k))
    decreases |s| - i
  {
    if i < |s| && !QuoteOpensAt(s, q, i) {
      FindQuoteLeftmost(s, q, i + 1);
    }
  }

  // ----- text after a phrase -----

  /** The phrase occurs at `i` of the lower-cased message `u`, and something follows it. */
  predicate PhraseOpensAt(u: string, phrase: string, i: int)
  {
    OccursAt(u, phrase, i) && i + |phrase| < |u|
  }

  /** The first index at or after `i` whose character is not whitespace, or `|s|`. */
  function SkipSpaces(s: string, i: nat): (j: nat)
    requires i <= |s|
    ensures i <= j <= |s|
    ensures forall k :: i <= k < j ==> IsSpace(s[k])
    ensures j < |s| ==> !IsSpace(s[j])
    decreases |s| - i
  {
    if i == |s| || !IsSpace(s[i]) then i else SkipSpaces(s, i + 1)
  }

  /** The first newline at or after `i`, or `|s|`. */
  function NextNewline(s: string, i: nat): (j: nat)
    requires i <= |s|
    ensures i <= j <= |s|
    ensures forall k :: i <= k < j ==> s[k] != '\n'
    ensures j < |s| ==> s[j] == '\n'
    decreases |s| - i
  {
    if i == |s| || s[i] == '\n' then i else NextNewline(s, i + 1)
  }

  /** Where the optional colon after the phrase ending at `p` ends. */
  function AfterColon(s: string, p: nat): (c: nat)
    requires p < |s|
    ensures p <= c <= p + 1 && (c == p + 1 <==> s[p] == ':')
  {
    if s[p] == ':' then p + 1 else p
  }

  /**
   * Where the group of `:?\s*(.+?)(?:\n|$)`, matched at `p`, starts: after the colon and the
   * whitespace. When only the colon or whitespace is left, the engine gives back the last
   * of those characters to the group.
   */
  function GroupStart(s: string, p: nat): (a: nat)
    requires p < |s|
    ensures p <= a < |s|
  {
    var c := AfterColon(s, p);
    var a := SkipSpaces(s, c);
    if a < |s| then a else if a > c then |s| - 1 else p
  }

  /** Where that group ends: at the first newline after its first character, or at the end. */
  function GroupEnd(s: string, p: nat): (b: nat)
    requires p < |s|
    ensures GroupStart(s, p) < b <= |s|
  {
    var a := SkipSpaces(s, AfterColon(s, p));
    if a < |s| then NextNewline(s, a + 1) else |s|
  }

  /** The group itself. */
  function PhraseGroup(s: string, p: nat): string
    requires p < |s|
  {
    s[GroupStart(s, p)..GroupEnd(s, p)]
  }

  /**
   * `:?\s*(.+?)(?:\n|$)` matches at `p` with its group at `[a, b)`: before the group an
   * optional colon and whitespace, the group not empty and ending at a newline or the end,
   * with no newline in it after its first character.
   */
  predicate LineMatch(s: string, p: int, a: int, b: int)
  {
    0 <= p <= a < b <= |s| &&
    (forall k :: p <= k < a ==> IsSpace(s[k]) || (k == p && s[p] == ':')) &&
    (forall k :: a < k < b ==> s[k] != '\n') &&
    (b == |s| || s[b] == '\n')
  }

  /**
   * What `PhraseGroup` takes is the match `re` prefers: of the pattern's tail, the one whose
   * group starts last (the greedy `:?\s*`) and, from there, ends first (the lazy `.+?`).
   */
  lemma PhraseGroupMatches(s: string, p: nat)
    requires p < |s|
    ensures LineMatch(s, p, GroupStart(s, p), GroupEnd(s, p))
    ensures forall a, b :: LineMatch(s, p, a, b) ==> a <= GroupStart(s, p)
    ensures forall b :: LineMatch(s, p, GroupStart(s, p), b) ==> b == GroupEnd(s, p)
  {
    forall a, b | LineMatch(s, p, a, b) ensures a <= GroupStart(s, p) {
      GreedyStart(s, p, a, b);
    }
    forall b | LineMatch(s, p, GroupStart(s, p), b) ensures b == GroupEnd(s, p) {
      LazyEnd(s, p, b);
    }
  }

  /** No match of the tail starts its group after `GroupStart`. */
  lemma GreedyStart(s: string, p: nat, a: int, b: int)
    requires p < |s| && LineMatch(s, p, a, b)
    ensures a <= GroupStart(s, p)
  {
    var c := AfterColon(s, p);
    var a0 := SkipSpaces(s, c);
    if a0 < |s| {
      assert !IsSpace(s[a0]) && (a0 == p ==> s[p] != ':');
    }
  }

  /** From `GroupStart`, the only end of a match is `GroupEnd`. */
  lemma LazyEnd(s: string, p: nat, b: int)
    requires p < |s| && LineMatch(s, p, GroupStart(s, p), b)
    ensures b == GroupEnd(s, p)
  {
    var a0 := SkipSpaces(s, AfterColon(s, p));
    var e := GroupEnd(s, p);
    if a0 < |s| {
      assert GroupStart(s, p) == a0 && e == NextNewline(s, a0 + 1);
    }
  }

  /** Apart from a single whitespace character given back, the group holds no newline. */
  lemma GroupNoNewline(s: string, p: nat)
    requires p < |s|
    ensures var g := PhraseGroup(s, p);
      '\n' !in g || (|g| == 1 && IsSpace(g[0]))
  {
    var a := GroupStart(s, p);
    var b := GroupEnd(s, p);
    var c := AfterColon(s, p);
    var g := PhraseGroup(s, p);
    if SkipSpaces(s, c) < |s| {
      forall k | 0 <= k < |g| ensures g[k] != '\n' {
        assert g[k] == s[a + k];
      }
    }
  }

  /** A string with no newline keeps none when stripped. */
  lemma StripNoNewline(g: string)
    requires '\n' !in g
    ensures '\n' !in Strip(g)
  {
    var r := Strip(g);
    var i :| OccursAt(g, r, i);
    assert forall j :: 0 <= j < |r| ==> r[j] == g[i + j];
  }

  /** Stripped, the group is a single line: it holds no newline. */
  lemma PhraseGroupOneLine(s: string, p: nat)
    requires p < |s|
    ensures '\n' !in Strip(PhraseGroup(s, p))
  {
    var g := PhraseGroup(s, p);
    GroupNoNewline(s, p);
    if '\n' in g {
      assert Strip(g) == [];
    } else {
      StripNoNewline(g);
    }
  }

  /** `re.search` of a phrase pattern from position `i` on, in the lower-cased message `u`: where the leftmost match starts. */
  function FindPhrase(u: string, phrase: string, i: nat): (r: Option<nat>)
    ensures r.Some? ==> i <= r.value && r.value + |phrase| < |u|
    decreases |u| - i
  {
    if i >= |u| then None
    else if PhraseOpensAt(u, phrase, i) then Some(i)
    else FindPhrase(u, phrase, i + 1)
  }

  /** The search finds the leftmost occurrence of the phrase that something follows. */
  lemma {:induction false} FindPhraseLeftmost(u: string, phrase: string, i: nat)
    ensures var r := FindPhrase(u, phrase, i);
      (r.None? <==> forall j :: i <= j < |u| ==> !PhraseOpensAt(u, phrase, j)) &&
      (r.Some? ==> PhraseOpensAt(u, phrase, r.value) && forall k :: i <= k < r.value ==> !PhraseOpensAt(u, phrase, k))
    decreases |u| - i
  {
    if i < |u| && !PhraseOpensAt(u, phrase, i) {
      FindPhraseLeftmost(u, phrase, i + 1);
    }
  }

  // ----- the pattern lists -----

  /** `re.search(pattern, s, re.IGNORECASE | re.DOTALL)`, as the first group when it matches. */
  function Search(p: Pattern, s: string): Option<string>
  {
    match p
    case Quoted(q) =>
      (match FindQuote(s, q, 0) case Some(i) => Some(QuotedGroup(s, q, i)) case None => None)
    case After(phrase) =>
      (match FindPhrase(Lower(s), phrase, 0) case Some(i) => Some(PhraseGroup(s, i + |phrase|)) case None => None)
  }

  /** The stripped group of the first pattern that matches, or `""`. */
  function FirstGroup(patterns: seq<Pattern>, s: string): string
    decreases |patterns|
  {
    if patterns == [] then ""
    else match Search(patterns[0], s)
      case Some(g) => Strip(g)
      case None => FirstGroup(patterns[1..], s)
  }

  /** The answer is `""` when no pattern matches, and otherwise the stripped group of the first that does. */
  lemma {:induction false} FirstGroupIsFirst(patterns: seq<Pattern>, s: string)
    ensures (forall k :: 0 <= k < |patterns| ==> Search(patterns[k], s).None?) ==> FirstGroup(patterns, s) == ""
    ensures forall k :: (0 <= k < |patterns| && Search(patterns[k], s).Some? &&
                         forall j :: 0 <= j < k ==> Search(patterns[j], s).None?) ==>
      FirstGroup(patterns, s) == Strip(Search(patterns[k], s).value)
    decreases |patterns|
  {
    if patterns != [] {
      FirstGroupIsFirst(patterns[1..], s);
      assert forall k :: 1 <= k < |patterns| ==> patterns[1..][k - 1] == patterns[k];
    }
  }

  /** `_extract_text_to_continue`. */
  function ExtractTextToContinue(input: string): string
  {
    FirstGroup(ContinuePatterns, input)
  }

  /** `_extract_prompt`. */
  function ExtractPrompt(input: string): string
  {
    FirstGroup(PromptPatterns, input)
  }

  /** Whatever is extracted has no whitespace at either end. */
  lemma {:induction false} FirstGroupStripped(patterns: seq<Pattern>, s: string)
    ensures var r := FirstGroup(patterns, s);
      r == [] || (!IsSpace(r[0]) && !IsSpace(r[|r| - 1]))
    decreases |patterns|
  {
    if patterns != [] && Search(patterns[0], s).None? {
      FirstGroupStripped(patterns[1..], s);
    }
  }

  /** A quote that does not occur opens nothing. */
  lemma NoQuote(s: string, q: char)
    requires q !in s
    ensures FindQuote(s, q, 0).None?
  {
    FindQuoteLeftmost(s, q, 0);
  }

  /** A phrase that does not occur, in any case, is not followed. */
  lemma NoPhrase(s: string, phrase: string)
    requires !Contains(Lower(s), phrase)
    ensures FindPhrase(Lower(s), phrase, 0).None?
  {
    FindPhraseLeftmost(Lower(s), phrase, 0);
    ContainsIsOccurrence(Lower(s), phrase);
  }

  /** A message with no quote and none of the phrases yields nothing to continue. */
  lemma NothingToContinue(input: string)
    requires '"' !in input && '\'' !in input
    requires !Contains(Lower(input), "continue this") && !Contains(Lower(input), "complete this") &&
             !Contains(Lower(input), "finish this")
    ensures ExtractTextToContinue(input) == ""
  {
    NoQuote(input, '"');
    NoQuote(input, '\'');
    NoPhrase(input, "continue this");
    NoPhrase(input, "complete this");
    NoPhrase(input, "finish this");
    var ps := ContinuePatterns;
    assert ps[1..][1..][1..][1..][1..] == [];
  }

  /** The leftmost match of the double-quoted pattern decides both extractions. */
  lemma DoubleQuotedWins(s: string, i: int, g: string)
    requires QuotedMatch(s, '"', i, g)
    requires forall j :: 0 <= j < i ==> !QuoteOpensAt(s, '"', j)
    ensures ExtractTextToContinue(s) == Strip(g)
    ensures ExtractPrompt(s) == Strip(g)
  {
    QuotedMatchIsOpening(s, '"', i, g);
    FindQuoteLeftmost(s, '"', 0);
    var r := FindQuote(s, '"', 0);
    assert r == Some(i);
    assert Search(Quoted('"'), s) == Some(g);
  }

  /** Phrase patterns only ever give one line of text. */
  lemma {:induction false} PhrasesOneLine(patterns: seq<Pattern>, s: string)
    requires forall k :: 0 <= k < |patterns| ==> patterns[k].After?
    ensures '\n' !in FirstGroup(patterns, s)
    decreases |patterns|
  {
    if patterns != [] {
      var p := patterns[0];
      var f := FindPhrase(Lower(s), p.phrase, 0);
      if f.Some? {
        PhraseGroupOneLine(s, f.value + |p.phrase|);
      } else {
        assert FirstGroup(patterns, s) == FirstGroup(patterns[1..], s);
        PhrasesOneLine(patterns[1..], s);
      }
    }
  }

  /** Without quotes in the message, the text to continue is the rest of one line after the phrase. */
  lemma ContinueThisLine(input: string)
    requires '"' !in input && '\'' !in input
    ensures '\n' !in ExtractTextToContinue(input)
  {
    NoQuote(input, '"');
    NoQuote(input, '\'');
    var ps := ContinuePatterns;
    assert FirstGroup(ps, input) == FirstGroup(ps[1..][1..], input);
    PhrasesOneLine(ps[1..][1..], input);
  }

  /** Wherever "write about" can be followed, so can its own "about": the fourth prompt pattern never decides. */
  lemma WriteAboutCovered(u: string)
    ensures FindPhrase(u, "write about", 0).Some? ==>
      FindPhrase(u, "about", 0).Some? && FindPhrase(u, "about", 0).value <= FindPhrase(u, "write about", 0).value + 6
  {
    FindPhraseLeftmost(u, "about", 0);
    FindPhraseLeftmost(u, "write about", 0);
    if FindPhrase(u, "write about", 0).Some? {
      var j := FindPhrase(u, "write about", 0).value;
      assert u[j + 6..j + 11] == u[j..j + 11][6..];
      assert PhraseOpensAt(u, "about", j + 6);
    }
  }

  /** `_extract_prompt` answers the same without its "write about" pattern. */
  lemma PromptWithoutWriteAbout(s: string)
    ensures ExtractPrompt(s) == FirstGroup([Quoted('"'), Quoted('\''), After("about"), After("generate")], s)
  {
    WriteAboutCovered(Lower(s));
    var ps := PromptPatterns;
    assert ps[1..][1..][1..] == [After("write about"), After("generate")];
  }
}
