/**
 * `_filter_sentences` of the text processor: four quality gates a sentence must pass
 * to be kept. The two fractional thresholds, `len(s) * 0.3` and `len(words) * 0.6`, are
 * compared exactly, as `10 * other > 3 * len` and `5 * distinct < 3 * words`.
 */
module SentenceFilter {
  import opened PyStr
  import opened Persistence
  import opened Seqs

  /** More than 30% of the characters are neither letters nor whitespace. */
  predicate TooManySymbols(s: string)
  {
    10 * CountOther(s) > 3 * |s|
  }

  /** All upper case and longer than 20 characters: probably a heading. */
  predicate LooksLikeHeading(s: string)
  {
    IsUpperStr(s) && |s| > 20
  }

  /** More than five words, fewer than 60% of them distinct: probably corrupted text. */
  predicate RepeatsWords(s: string)
  {
    var words := SplitWords(Lower(s));
    5 * |Members(words)| < 3 * |words| && |words| > 5
  }

  /** The sentence passes all four gates. */
  predicate Keep(s: string, minLength: int, maxLength: int)
  {
    minLength <= |s| <= maxLength && !TooManySymbols(s) && !LooksLikeHeading(s) && !RepeatsWords(s)
  }

  /** The sentences that pass, in their order. */
  function Filtered(sentences: seq<string>, minLength: int, maxLength: int): seq<string>
    decreases |sentences|
  {
    if sentences == [] then []
    else
      var last := sentences[|sentences| - 1];
      Filtered(sentences[..|sentences| - 1], minLength, maxLength) + (if Keep(last, minLength, maxLength) then [last] else [])
  }

  /** The four gates of the loop body of `_filter_sentences`, tried in order. */
  method Passes(sentence: string, minLength: int, maxLength: int) returns (ok: bool)
    ensures ok == Keep(sentence, minLength, maxLength)
  {
    if |sentence| < minLength || |sentence| > maxLength {
      return false;
    }
    if 10 * CountOther(sentence) > 3 * |sentence| {
      return false;
    }
    if IsUpperStr(sentence) && |sentence| > 20 {
      return false;
    }
    var words := SplitWords(Lower(sentence));
    if 5 * |Members(words)| < 3 * |words| && |words| > 5 {
      return false;
    }
    return true;
  }

  /** `_filter_sentences`. */
  method FilterSentences(sentences: seq<string>, minLength: int, maxLength: int) returns (filtered: seq<string>)
    ensures filtered == Filtered(sentences, minLength, maxLength)
  {
    filtered := [];
    var i := 0;
    while i < |sentences|
      invariant 0 <= i <= |sentences|
      invariant filtered == Filtered(sentences[..i], minLength, maxLength)
    {
      var ok := Passes(sentences[i], minLength, maxLength);
      assert sentences[..i + 1][..i] == sentences[..i];
      if ok {
        filtered := filtered + [sentences[i]];
      }
      i := i + 1;
    }
    TakeAll(sentences);
  }

  /** Filtering distributes over concatenation: the kept sentences of each part, in order. */
  lemma {:induction false} FilteredAppend(a: seq<string>, b: seq<string>, minLength: int, maxLength: int)
    ensures Filtered(a + b, minLength, maxLength) == Filtered(a, minLength, maxLength) + Filtered(b, minLength, maxLength)
    decreases |b|
  {
    if b == [] {
      assert a + b == a;
    } else {
      var b0 := b[..|b| - 1];
      FilteredAppend(a, b0, minLength, maxLength);
      assert (a + b)[..|a + b| - 1] == a + b0;
      assert (a + b)[|a + b| - 1] == b[|b| - 1];
    }
  }

  /** One sentence is kept exactly when it passes. */
  lemma FilteredSingle(s: string, minLength: int, maxLength: int)
    ensures Filtered([s], minLength, maxLength) == if Keep(s, minLength, maxLength) then [s] else []
  {
    assert [s][..0] == [];
  }

  /** A sentence is in the output exactly when it is in the input and passes every gate. */
  lemma {:induction false} FilteredMembers(sentences: seq<string>, minLength: int, maxLength: int, s: string)
    ensures s in Filtered(sentences, minLength, maxLength) <==> s in sentences && Keep(s, minLength, maxLength)
    decreases |sentences|
  {
    if sentences != [] {
      var init := sentences[..|sentences| - 1];
      FilteredMembers(init, minLength, maxLength, s);
      assert sentences == init + [sentences[|sentences| - 1]];
    }
  }

  /** The output is never longer than the input. */
  lemma {:induction false} FilteredLength(sentences: seq<string>, minLength: int, maxLength: int)
    ensures |Filtered(sentences, minLength, maxLength)| <= |sentences|
    decreases |sentences|
  {
    if sentences != [] {
      FilteredLength(sentences[..|sentences| - 1], minLength, maxLength);
    }
  }

  /** Each kept sentence has an admissible length and passes the three quality gates. */
  lemma {:induction false} FilteredPass(sentences: seq<string>, minLength: int, maxLength: int)
    ensures forall i :: 0 <= i < |Filtered(sentences, minLength, maxLength)| ==>
      Keep(Filtered(sentences, minLength, maxLength)[i], minLength, maxLength)
    decreases |sentences|
  {
    if sentences != [] {
      FilteredPass(sentences[..|sentences| - 1], minLength, maxLength);
    }
  }
}
