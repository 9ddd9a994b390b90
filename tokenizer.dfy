/**
 * How the language model turns a sentence into training tokens: `re.findall` of
 * word runs and the punctuation marks `.!?;,`, then a filter that keeps alphabetic
 * words of two or more letters (lower-cased) and the sentence-ending marks.
 */
module Tokenizer {
  import opened PyStr

  /** The characters `[.!?;,]` the tokenizer picks out on their own. */
  predicate IsMark(c: char) { c == '.' || c == '!' || c == '?' || c == ';' || c == ',' }

  /** Length of the longest prefix of `s` made of `\w` characters. */
  function WordRun(s: string): (k: nat)
    ensures k <= |s|
    ensures forall i :: 0 <= i < k ==> IsWordChar(s[i])
    ensures k < |s| ==> !IsWordChar(s[k])
    decreases |s|
  {
    if s != [] && IsWordChar(s[0]) then 1 + WordRun(s[1..]) else 0
  }

  /** A token `re.findall(r'\b\w+\b|[.!?;,]', s)` can return. */
  predicate IsToken(t: string)
  {
    (t != [] && forall i :: 0 <= i < |t| ==> IsWordChar(t[i])) || (|t| == 1 && IsMark(t[0]))
  }

  /**
   * `re.findall(r'\b\w+\b|[.!?;,]', s)`, scanning left to right: a maximal run of word
   * characters always starts and ends at a word boundary, and every other mark is a token
   * of its own.
   */
  function FindTokens(s: string): (r: seq<string>)
    ensures forall i :: 0 <= i < |r| ==> IsToken(r[i])
    decreases |s|
  {
    if s == [] then []
    else if IsWordChar(s[0]) then
      var k := WordRun(s);
      [s[..k]] + FindTokens(s[k..])
    else if IsMark(s[0]) then [[s[0]]] + FindTokens(s[1..])
    else FindTokens(s[1..])
  }

  /** The filter applied to one token: a word of two or more letters, lower-cased, or a token `in '.!?'`. */
  function KeepToken(t: string): seq<string>
  {
    if IsAlpha(t) && |t| > 1 then [Lower(t)]
    else if InTerminals(t) then [t]
    else []
  }

  /** The filter applied to a token list, one token after another. */
  function KeepTokens(ts: seq<string>): seq<string>
    decreases |ts|
  {
    if ts == [] then [] else KeepTokens(ts[..|ts| - 1]) + KeepToken(ts[|ts| - 1])
  }

  /** `_preprocess_sentence`. */
  function Preprocess(sentence: string): seq<string>
  {
    KeepTokens(FindTokens(Strip(sentence)))
  }

  /** A token the model trains on: two or more lower-case letters, or a single `.`, `!` or `?`. */
  predicate IsModelToken(w: string)
  {
    (|w| > 1 && AllLower(w)) || (|w| == 1 && IsTerminalChar(w[0]))
  }

  /** The tokens kept from one `findall` token are lower-cased words of two or more letters and the three sentence ends. */
  lemma KeepTokenShape(t: string)
    requires IsToken(t)
    ensures forall w :: w in KeepToken(t) ==> IsModelToken(w)
    ensures IsModelToken(t) ==> KeepToken(t) == [t]
    ensures KeepToken(t) != [] <==> (IsAlpha(t) && |t| > 1) || (|t| == 1 && IsTerminalChar(t[0]))
  {
    if IsAlpha(t) && |t| > 1 {
      LowerNoUpper(t);
      assert AllLower(Lower(t));
    } else if InTerminals(t) {
      assert t[0] == '.' || t[0] == '!' || t[0] == '?' || |t| > 1;
    }
    if IsModelToken(t) && |t| > 1 {
      assert IsAlpha(t);
      assert Lower(t) == t;
    }
  }

  /** Every token `_preprocess_sentence` emits is a lower-case word of two or more letters or one of `.`, `!`, `?`. */
  lemma {:induction false} KeepTokensShape(ts: seq<string>)
    requires forall i :: 0 <= i < |ts| ==> IsToken(ts[i])
    ensures forall w :: w in KeepTokens(ts) ==> IsModelToken(w)
    decreases |ts|
  {
    if ts != [] {
      KeepTokensShape(ts[..|ts| - 1]);
      KeepTokenShape(ts[|ts| - 1]);
    }
  }

  /** `_preprocess_sentence` emits only lower-cased alphabetic words of length > 1 and the single symbols `.`, `!`, `?`. */
  lemma PreprocessShape(sentence: string)
    ensures forall w :: w in Preprocess(sentence) ==> IsModelToken(w)
  {
    KeepTokensShape(FindTokens(Strip(sentence)));
  }

  /** The filter never adds tokens. */
  lemma {:induction false} KeepTokensLength(ts: seq<string>)
    ensures |KeepTokens(ts)| <= |ts|
    decreases |ts|
  {
    if ts != [] { KeepTokensLength(ts[..|ts| - 1]); }
  }
}
