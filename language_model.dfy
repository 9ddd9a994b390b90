/**
 * `SimpleLanguageModelBuiltin`: an n-gram model whose fields training updates in
 * place, text generation with single-step backoff, next-word suggestions,
 * statistics, and the save/load field mapping.
 */
module LanguageModel {
  import opened PyStr
  import opened Ordering
  import opened Wrappers
  import opened Tokenizer
  import opened NGram
  import opened Generation
  import opened Persistence
  import opened Seqs

  /** The fallback grammar of an untrained model. */
  const BasicStarters: seq<string> := ["The", "A", "An", "In", "On", "At", "Once", "When", "After", "Before"]
  const CommonWords: seq<string> := ["the", "a", "an", "and", "or", "but", "in", "on", "at", "to", "for", "of", "with", "by"]
  const BasicPunctuation: seq<string> := [".", "!", "?"]
  const UntrainedPrefix: string := "Model not trained. Basic output: "
  /** What `suggest_next_words` answers before training. */
  const UntrainedSuggestions: seq<Entry> :=
    [Entry("not", 0.2), Entry("trained", 0.2), Entry("yet", 0.2), Entry("please", 0.2), Entry("wait", 0.2)]

  /** The sentences `train` keeps, tokenised: those with at least `n` tokens. */
  function Processed(sentences: seq<string>, n: int): (ps: seq<seq<string>>)
    ensures forall i :: 0 <= i < |ps| ==> |ps[i]| >= n
    decreases |sentences|
  {
    if sentences == [] then []
    else
      var words := Preprocess(sentences[|sentences| - 1]);
      Processed(sentences[..|sentences| - 1], n) + (if |words| >= n then [words] else [])
  }

  /** `[p[0]]` when `train` would add the first word of `p` to `sentence_starters`: it is title-cased. */
  function TitledFirst(p: seq<string>): seq<string>
  {
    if p != [] && IsTitle(p[0]) then [p[0]] else []
  }

  /** The first words `train` would add to `sentence_starters`. */
  function TitledStarters(ps: seq<seq<string>>): seq<string>
    decreases |ps|
  {
    if ps == [] then [] else TitledStarters(ps[..|ps| - 1]) + TitledFirst(ps[|ps| - 1])
  }

  /** `train` keeps a sentence exactly when it preprocesses to at least `n` tokens. */
  lemma ProcessedAppend(done: seq<string>, sentence: string, n: int)
    ensures |Preprocess(sentence)| >= n ==>
      Processed(done + [sentence], n) == Processed(done, n) + [Preprocess(sentence)]
    ensures |Preprocess(sentence)| < n ==> Processed(done + [sentence], n) == Processed(done, n)
  {
    assert (done + [sentence])[..|done|] == done;
    assert Processed(done, n) + [] == Processed(done, n);
  }

  /** Keeping one more sentence adds its title-cased first word and its word counts. */
  lemma KeptStep(ps: seq<seq<string>>, words: seq<string>, c: map<string, int>, s0: seq<string>)
    ensures s0 + TitledStarters(ps + [words]) == (s0 + TitledStarters(ps)) + TitledFirst(words)
    ensures CountSentences(c, ps + [words]) == CountWords(CountSentences(c, ps), words)
  {
    assert (ps + [words])[..|ps|] == ps;
  }

  /** Every processed sentence consists of model tokens. */
  lemma {:induction false} ProcessedTokens(sentences: seq<string>, n: int)
    ensures forall i, j :: 0 <= i < |Processed(sentences, n)| && 0 <= j < |Processed(sentences, n)[i]| ==>
      IsModelToken(Processed(sentences, n)[i][j])
    decreases |sentences|
  {
    if sentences != [] {
      ProcessedTokens(sentences[..|sentences| - 1], n);
      PreprocessShape(sentences[|sentences| - 1]);
    }
  }

  /** A list of sentences whose first words are model tokens has no title-cased first word. */
  lemma {:induction false} NoTitledFirstWords(ps: seq<seq<string>>)
    requires forall i :: 0 <= i < |ps| && ps[i] != [] ==> IsModelToken(ps[i][0])
    ensures TitledStarters(ps) == []
    decreases |ps|
  {
    if ps != [] {
      var p := ps[|ps| - 1];
      NoTitledFirstWords(ps[..|ps| - 1]);
      if p != [] { NoUpperNotTitle(p[0], false); }
    }
  }

  /** Every processed token is lower-case, so no processed sentence has a title-cased first word. */
  lemma NoTitledStarters(sentences: seq<string>, n: int)
    ensures TitledStarters(Processed(sentences, n)) == []
  {
    ProcessedTokens(sentences, n);
    NoTitledFirstWords(Processed(sentences, n));
  }

  /** The filler tokens of the untrained output: each `[WORD]`, or a common word when the draw is below 0.3. */
  function Fillers(count: nat, s: Sampler): (r: seq<string>)
    ensures |r| == count
    decreases count
  {
    if count == 0 then [] else Fillers(count - 1, s) + [Filler(count - 1, s)]
  }

  /** The filler of iteration `i`: a common word when that step's draw is below 0.3, else the placeholder. */
  function Filler(i: nat, s: Sampler): string
  {
    if s.draw(i + 1) < 0.3 then CommonWords[s.pick(i + 1) % |CommonWords|] else "[WORD]"
  }

  /** `min(max_length, 20)` iterations, none for a negative `max_length`. */
  function FillerCount(maxLength: int): nat
  {
    if maxLength < 0 then 0 else if maxLength < 20 then maxLength else 20
  }

  /** The start of the untrained output: the prompt's words, or one fixed starter. */
  function BasicStart(prompt: string, s: Sampler): seq<string>
  {
    if prompt != "" then SplitWords(prompt) else [BasicStarters[s.pick(0) % |BasicStarters|]]
  }

  /** The tokens of the untrained output. */
  function BasicWords(prompt: string, maxLength: int, s: Sampler): seq<string>
  {
    var count := FillerCount(maxLength);
    BasicStart(prompt, s) + Fillers(count, s) + [BasicPunctuation[s.pick(count + 1) % |BasicPunctuation|]]
  }

  /** A filler token: the placeholder or one of the common words. */
  predicate IsFiller(w: string) { w == "[WORD]" || w in CommonWords }

  /**
   * The untrained output is the prompt's whitespace-separated words (or, with no prompt, one
   * sentence starter), then `min(max_length, 20)` fillers (none for a negative `max_length`),
   * each `[WORD]` or a common word, then one of `.`, `!`, `?`.
   */
  lemma BasicWordsShape(prompt: string, maxLength: int, s: Sampler)
    ensures var ws := BasicWords(prompt, maxLength, s); var start := BasicStart(prompt, s);
      && |ws| == |start| + FillerCount(maxLength) + 1
      && (prompt != "" ==> start == SplitWords(prompt))
      && (prompt == "" ==> |start| == 1 && ws[0] in BasicStarters)
      && ws[..|start|] == start
      && (forall j :: |start| <= j < |ws| - 1 ==> IsFiller(ws[j]))
      && ws[|ws| - 1] in BasicPunctuation
    ensures FillerCount(maxLength) <= 20
    ensures 0 <= maxLength <= 20 ==> FillerCount(maxLength) == maxLength
    ensures maxLength < 0 ==> FillerCount(maxLength) == 0
  {
    var start := BasicStart(prompt, s);
    var count := FillerCount(maxLength);
    var fillers := Fillers(count, s);
    var last := BasicPunctuation[s.pick(count + 1) % |BasicPunctuation|];
    var ws := start + fillers + [last];
    assert BasicWords(prompt, maxLength, s) == ws;
    FillersShape(count, s);
    assert ws[..|start|] == start;
    forall j | |start| <= j < |ws| - 1 ensures IsFiller(ws[j]) {
      assert ws[j] == fillers[j - |start|];
    }
  }

  lemma {:induction false} FillersShape(count: nat, s: Sampler)
    ensures forall j :: 0 <= j < count ==> IsFiller(Fillers(count, s)[j])
    decreases count
  {
    if count > 0 { FillersShape(count - 1, s); }
  }

  /** `_preprocess_sentence`, the filtering loop over the `findall` tokens. */
  method PreprocessSentence(sentence: string) returns (words: seq<string>)
    ensures words == Preprocess(sentence)
  {
    var tokens := FindTokens(Strip(sentence));
    words := [];
    var i := 0;
    while i < |tokens|
      invariant 0 <= i <= |tokens|
      invariant words == KeepTokens(tokens[..i])
    {
      var token := tokens[i];
      if IsAlpha(token) && |token| > 1 {
        words := words + [Lower(token)];
      } else if InTerminals(token) {
        words := words + [token];
      }
      assert tokens[..i + 1][..i] == tokens[..i];
      i := i + 1;
    }
    assert tokens[..i] == tokens;
    PreprocessShape(sentence);
  }

  /** The cumulative loop of `_sample_word_builtin`: the first index whose running total reaches the draw, else the last. */
  method CumulativeIndex(probs: seq<real>, randVal: real) returns (k: nat)
    requires probs != []
    ensures k == match CumFind(probs, randVal, 0.0) case Some(j) => j case None => |probs| - 1
  {
    var cumulative := 0.0;
    var j := 0;
    while j < |probs|
      invariant 0 <= j <= |probs|
      invariant CumFind(probs, randVal, 0.0) == Shift(CumFind(probs[j..], randVal, cumulative), j)
    {
      CumFindStep(probs, j, randVal, cumulative);
      cumulative := cumulative + probs[j];
      if randVal <= cumulative {
        return j;
      }
      j := j + 1;
    }
    return |probs| - 1;
  }

  /** One step of the cumulative loop. */
  lemma CumFindStep(probs: seq<real>, j: nat, randVal: real, cumulative: real)
    requires j < |probs|
    ensures randVal <= cumulative + probs[j] ==> Shift(CumFind(probs[j..], randVal, cumulative), j) == Some(j)
    ensures randVal > cumulative + probs[j] ==>
      Shift(CumFind(probs[j..], randVal, cumulative), j) == Shift(CumFind(probs[j + 1..], randVal, cumulative + probs[j]), j + 1)
  {
    assert probs[j..][1..] == probs[j + 1..];
    ShiftShift(CumFind(probs[j + 1..], randVal, cumulative + probs[j]), j);
  }

  /** `_sample_word_builtin` at step `i`: the greedy maximum, or the cumulative draw. */
  method SampleWord(d: Dist, s: Sampler, i: nat) returns (w: string)
    requires d != []
    ensures w == SampleSpec(d, s, i)
    ensures w in Words(d)
  {
    var words := Words(d);
    var probs := Weights(d);
    if s.temperature == 0.0 {
      var maxProb := MaxR(probs);
      var maxIndex := IndexOf(probs, maxProb);
      return words[maxIndex];
    }
    if s.temperature != 1.0 {
      probs := Powered(probs, s.power);
    }
    var total := SumR(probs);
    if total == 0.0 {
      return words[s.pick(i) % |words|];
    }
    probs := Divide(probs, total);
    var randVal := s.draw(i);
    var k := CumulativeIndex(probs, randVal);
    return words[k];
  }

  /** An index found in a suffix that starts at `j`, as an index of the whole list. */
  function Shift(o: Option<nat>, j: nat): Option<nat>
  {
    match o
      case None => None
      case Some(k) => Some(k + j)
  }

  lemma ShiftShift(o: Option<nat>, j: nat)
    ensures Shift(Shift(o, 1), j) == Shift(o, j + 1)
    ensures Shift(o, 0) == o
  {
  }

  /** `_format_output`: the first token capitalised, sentence ends glued on, joined with spaces. */
  method FormatOutput(words: seq<string>) returns (text: string)
    ensures text == Format(words)
  {
    if words == [] {
      return "";
    }
    var formatted := [Capitalize(words[0])];
    var i := 1;
    while i < |words|
      invariant 1 <= i <= |words|
      invariant formatted == Pieces(words[..i])
    {
      var word := words[i];
      assert words[..i + 1][..i] == words[..i];
      if InTerminals(word) {
        var last := |formatted| - 1;
        assert formatted[last := formatted[last] + word] == formatted[..last] + [formatted[last] + word];
        formatted := formatted[last := formatted[last] + word];
      } else {
        formatted := formatted + [word];
      }
      i := i + 1;
    }
    assert words[..i] == words;
    text := Join(formatted, " ");
    text := DropSpaceBefore(text);
  }

  /** `_generate_basic_text`. */
  method GenerateBasicText(prompt: string, maxLength: int, s: Sampler) returns (text: string)
    ensures text == UntrainedPrefix + Join(BasicWords(prompt, maxLength, s), " ")
  {
    var words: seq<string>;
    if prompt != "" {
      words := SplitWords(prompt);
    } else {
      words := [BasicStarters[s.pick(0) % |BasicStarters|]];
    }
    var count := FillerCount(maxLength);
    ghost var start := words;
    var i := 0;
    while i < count
      invariant 0 <= i <= count
      invariant words == start + Fillers(i, s)
    {
      var filler: string;
      if s.draw(i + 1) < 0.3 {
        filler := CommonWords[s.pick(i + 1) % |CommonWords|];
      } else {
        filler := "[WORD]";
      }
      assert filler == Filler(i, s);
      AppendAssoc(start, Fillers(i, s), filler);
      words := words + [filler];
      i := i + 1;
    }
    assert start == BasicStart(prompt, s);
    words := words + [BasicPunctuation[s.pick(count + 1) % |BasicPunctuation|]];
    assert words == BasicWords(prompt, maxLength, s);
    text := UntrainedPrefix + Join(words, " ");
  }

  /** The tokens a trained model generates: the seed, then the bounded loop from step 1. */
  function GeneratedTokens(t: Table, V: set<string>, n: Positive, starters: seq<string>, prompt: string, maxLength: int, s: Sampler): Result<seq<string>>
  {
    match Seed(prompt, V, starters, s)
      case Err(e) => Err(e)
      case Ok(g) => Run(t, V, n, s, g, if maxLength < 0 then 0 else maxLength, 1)
  }

  /** A trained model's `generate_text`. */
  function Generate(t: Table, V: set<string>, n: Positive, starters: seq<string>, prompt: string, maxLength: int, s: Sampler): Result<string>
  {
    match GeneratedTokens(t, V, n, starters, prompt, maxLength, s)
      case Err(e) => Err(e)
      case Ok(ws) => Ok(Format(ws))
  }

  /**
   * The tokens a trained model generates extend the seed by at most `max_length` tokens, stop
   * right after the first token `in '.!?'`, and on a shaped table are vocabulary words after the seed.
   */
  lemma GeneratedTokensShape(t: Table, V: set<string>, n: Positive, starters: seq<string>, prompt: string, maxLength: int, s: Sampler)
    ensures var r := GeneratedTokens(t, V, n, starters, prompt, maxLength, s);
      r.Ok? ==> (Seed(prompt, V, starters, s).Ok? &&
        var g := Seed(prompt, V, starters, s).value;
        && g <= r.value
        && |r.value| <= |g| + (if maxLength < 0 then 0 else maxLength)
        && (forall j :: |g| <= j < |r.value| - 1 ==> !InTerminals(r.value[j]))
        && (Shaped(t, n, V) ==> forall j :: |g| <= j < |r.value| ==> r.value[j] in V))
  {
    var k := if maxLength < 0 then 0 else maxLength;
    match Seed(prompt, V, starters, s)
    case Err(e) =>
    case Ok(g) =>
      RunLength(StepOf(t, V, n, s), g, k, 1);
      RunStops(StepOf(t, V, n, s), g, k, 1);
      if Shaped(t, n, V) { RunInVocabulary(t, V, n, s, g, k, 1); }
  }

  /**
   * A trained model's `generate_text` raises only `random.choice`'s `IndexError`, and only on an
   * empty vocabulary; with an empty prompt and no sentence starters it then always raises.
   */
  lemma GenerateFails(t: Table, V: set<string>, n: Positive, starters: seq<string>, prompt: string, maxLength: int, s: Sampler)
    ensures Generate(t, V, n, starters, prompt, maxLength, s).Err? ==>
      V == {} && Generate(t, V, n, starters, prompt, maxLength, s).error == EmptyChoice
    ensures V == {} && prompt == "" && starters == [] ==> Generate(t, V, n, starters, prompt, maxLength, s).Err?
  {
    match Seed(prompt, V, starters, s)
    case Err(e) =>
    case Ok(g) => RunFailsOnEmpty(t, V, n, s, g, if maxLength < 0 then 0 else maxLength, 1);
  }

  /** One iteration of the generation loop that yields a token not `in '.!?'` continues the loop. */
  lemma RunContinues(step: (seq<string>, nat) -> Result<string>, g: seq<string>, k: nat, i: nat, w: string)
    requires k > 0 && step(g, i) == Ok(w) && !InTerminals(w)
    ensures RunWith(step, g, k, i) == RunWith(step, g + [w], k - 1, i + 1)
  {
  }

  /** One that yields a token `in '.!?'` ends it with that token. */
  lemma RunEnds(step: (seq<string>, nat) -> Result<string>, g: seq<string>, k: nat, i: nat, w: string)
    requires k > 0 && step(g, i) == Ok(w) && InTerminals(w)
    ensures RunWith(step, g, k, i) == Ok(g + [w])
  {
  }

  /** One that raises ends it with that error. */
  lemma RunFails(step: (seq<string>, nat) -> Result<string>, g: seq<string>, k: nat, i: nat, e: string)
    requires k > 0 && step(g, i) == Err(e)
    ensures RunWith(step, g, k, i) == Err(e)
  {
  }

  /** `step` is the generation step over this table, vocabulary, size and sampler. */
  ghost predicate StepsAre(step: (seq<string>, nat) -> Result<string>, t: Table, V: set<string>, n: Positive, s: Sampler)
  {
    forall g, i {:trigger Step(t, V, n, s, g, i)} :: step(g, i) == Step(t, V, n, s, g, i)
  }

  lemma StepOfIs(t: Table, V: set<string>, n: Positive, s: Sampler)
    ensures StepsAre(StepOf(t, V, n, s), t, V, n, s)
  {
  }

  /**
   * One iteration of the loop of `generate_text` at step `i`: the context's distribution, one
   * backoff, else a random vocabulary word, sampled as `Step` describes.
   */
  method NextWord(ghost step: (seq<string>, nat) -> Result<string>, t: Table, V: set<string>, n: Positive,
                  generated: seq<string>, s: Sampler, i: nat) returns (r: Result<string>)
    requires StepsAre(step, t, V, n, s)
    ensures r == step(generated, i)
  {
    var context := Context(generated, n);
    var nextWordProbs := Get(t, context);
    if nextWordProbs == [] {
      if |context| > 1 {
        context := context[1..];
        nextWordProbs := Get(t, context);
      }
    }
    if nextWordProbs == [] {
      r := VocabChoice(V, s.pick(i));
    } else {
      var w := SampleWord(nextWordProbs, s, i);
      r := Ok(w);
    }
    assert r == Step(t, V, n, s, generated, i);
  }

  /** The loop of `generate_text` from the seed `words`: at most `k` steps, stopping after a token `in '.!?'`. */
  method GenerationLoop(t: Table, V: set<string>, n: Positive, words: seq<string>, k: nat, s: Sampler) returns (r: Result<seq<string>>)
    ensures r == Run(t, V, n, s, words, k, 1)
  {
    StepOfIs(t, V, n, s);
    r := RunLoop(StepOf(t, V, n, s), t, V, n, words, k, s);
  }

  method RunLoop(ghost step: (seq<string>, nat) -> Result<string>, t: Table, V: set<string>, n: Positive,
                 words: seq<string>, k: nat, s: Sampler) returns (r: Result<seq<string>>)
    requires StepsAre(step, t, V, n, s)
    ensures r == RunWith(step, words, k, 1)
  {
    var generated := words;
    var left := k;
    var i := 1;
    while left > 0
      invariant RunWith(step, words, k, 1) == RunWith(step, generated, left, i)
    {
      var next := NextWord(step, t, V, n, generated, s, i);
      if next.Err? {
        RunFails(step, generated, left, i, next.error);
        return Err(next.error);
      }
      if InTerminals(next.value) {
        RunEnds(step, generated, left, i, next.value);
        return Ok(generated + [next.value]);
      }
      RunContinues(step, generated, left, i, next.value);
      generated := generated + [next.value];
      left := left - 1;
      i := i + 1;
    }
    return Ok(generated);
  }

  /** The `(word, count)` items for the words `ws`, in that order. */
  function ItemsOf(ws: seq<string>, counts: map<string, int>): (items: seq<(string, int)>)
    requires forall j :: 0 <= j < |ws| ==> ws[j] in counts
    ensures |items| == |ws| && forall j :: 0 <= j < |ws| ==> items[j].0 == ws[j]
    ensures forall e :: e in items <==> e.0 in ws && e.0 in counts && counts[e.0] == e.1
    decreases |ws|
  {
    if ws == [] then [] else [(ws[0], counts[ws[0]])] + ItemsOf(ws[1..], counts)
  }

  /** The `(word, count)` items of a counter, each word once (in increasing word order). */
  function CountItems(counts: map<string, int>): (items: seq<(string, int)>)
    ensures |items| == |counts|
    ensures forall e :: e in items <==> e.0 in counts && counts[e.0] == e.1
    ensures forall i, j :: 0 <= i < j < |items| ==> items[i].0 != items[j].0
  {
    StrictlySortedDistinct(SortedSet(counts.Keys));
    ItemsOf(SortedSet(counts.Keys), counts)
  }

  function CountOf(e: (string, int)): real { e.1 as real }

  /**
   * `Counter.most_common(k)`: the `k` items with the largest counts, largest first; items
   * with equal counts keep the order of the counter (here: increasing word order).
   */
  function MostCommon(counts: map<string, int>, k: nat): (r: seq<(string, int)>)
    ensures |r| == if k < |counts| then k else |counts|
    ensures forall j :: 0 <= j < |r| ==> r[j].0 in counts && counts[r[j].0] == r[j].1
    ensures IsDescending(r, CountOf)
    ensures forall i, j :: 0 <= i < j < |r| ==> r[i].0 != r[j].0
  {
    var items := CountItems(counts);
    TopSorted(items, CountOf, k);
    var r := PyTake(SortDesc(items, CountOf), k);
    assert Distinct(items);
    SubMultisetDistinct(r, items);
    assert forall i, j :: 0 <= i < j < |r| ==> r[i] != r[j];
    r
  }

  /** The first `k` of a list sorted by decreasing key: descending, and a sub-multiset of the list. */
  lemma TopSorted<T(!new)>(d: seq<T>, key: T -> real, k: int)
    ensures var r := PyTake(SortDesc(d, key), k);
      IsDescending(r, key) && multiset(r) <= multiset(d) && forall j :: 0 <= j < |r| ==> r[j] in d
  {
    var sorted := SortDesc(d, key);
    var r := PyTake(sorted, k);
    SortDescDescending(d, key);
    SortDescMembers(d, key);
    SortDescMultiset(d, key);
    DescendingPrefix(sorted, key, |r|);
    PrefixMultiset(sorted, |r|);
    assert multiset(r) <= multiset(d);
    forall j | 0 <= j < |r| ensures r[j] in d {
      assert r[j] == sorted[j];
    }
  }

  /** Among the first `k`, the elements of each key are the first ones of that key in the list. */
  lemma TopStable<T(!new)>(d: seq<T>, key: T -> real, k: int, v: real)
    ensures WithKey(PyTake(SortDesc(d, key), k), key, v) <= WithKey(d, key, v)
  {
    var sorted := SortDesc(d, key);
    SortDescStable(d, key, v);
    WithKeyPrefix(sorted, key, v, |PyTake(sorted, k)|);
  }

  /** No element left out of the first `k` has a larger key than one of them. */
  lemma TopDominates<T(!new)>(d: seq<T>, key: T -> real, k: int, e: T)
    requires e in d
    ensures var r := PyTake(SortDesc(d, key), k);
      e !in r ==> forall j :: 0 <= j < |r| ==> key(e) <= key(r[j])
  {
    var sorted := SortDesc(d, key);
    var r := PyTake(sorted, k);
    SortDescDescending(d, key);
    SortDescMembers(d, key);
    if e !in r {
      PrefixDominates(sorted, key, |r|, e);
    }
  }

  /** No word left out of `most_common(k)` is more frequent than any word it lists. */
  lemma MostCommonTop(counts: map<string, int>, k: nat, w: string)
    requires w in counts
    ensures var r := MostCommon(counts, k);
      (forall j :: 0 <= j < |r| ==> r[j].0 != w) ==> forall j :: 0 <= j < |r| ==> counts[w] <= r[j].1
  {
    TopDominates(CountItems(counts), CountOf, k, (w, counts[w]));
  }

  /**
   * `suggest_next_words` on a trained model: the distribution for the context's last `n - 1`
   * vocabulary tokens (with one backoff), sorted by decreasing probability, sliced to `k`.
   */
  function Suggestions(t: Table, V: set<string>, n: Positive, context: string, k: int): seq<Entry>
  {
    var d := Resolve(t, Context(FilterIn(Preprocess(context), V), n));
    PyTake(SortDesc(d, WeightOf), k)
  }

  /** In a stable sort's prefix, the elements of each key are a prefix of those of the whole list. */
  lemma {:induction false} WithKeyPrefix<T>(s: seq<T>, key: T -> real, v: real, m: nat)
    requires m <= |s|
    ensures WithKey(s[..m], key, v) <= WithKey(s, key, v)
    decreases m
  {
    if m > 0 {
      assert s[..m][0] == s[0] && s[..m][1..] == s[1..][..m - 1];
      WithKeyPrefix(s[1..], key, v, m - 1);
    }
  }

  /**
   * The suggestions are entries of the distribution, by decreasing probability, as many as
   * asked for a non-negative `k` when there are enough; entries of equal probability keep their
   * order in the distribution; and no entry left out is more probable than one suggested.
   */
  lemma SuggestionsCorrect(t: Table, V: set<string>, n: Positive, context: string, k: int, v: real)
    ensures var d := Resolve(t, Context(FilterIn(Preprocess(context), V), n));
      var r := Suggestions(t, V, n, context, k);
      && IsDescending(r, WeightOf)
      && multiset(r) <= multiset(d)
      && (k >= 0 ==> |r| == if k < |d| then k else |d|)
      && WithKey(r, WeightOf, v) <= WithKey(d, WeightOf, v)
      && (forall e :: e in d && e !in r ==> forall j :: 0 <= j < |r| ==> e.weight <= r[j].weight)
  {
    var d := Resolve(t, Context(FilterIn(Preprocess(context), V), n));
    TopSorted(d, WeightOf, k);
    TopStable(d, WeightOf, k, v);
    forall e | e in d ensures e !in Suggestions(t, V, n, context, k) ==>
      forall j :: 0 <= j < |Suggestions(t, V, n, context, k)| ==> e.weight <= Suggestions(t, V, n, context, k)[j].weight
    {
      TopDominates(d, WeightOf, k, e);
    }
  }

  lemma PrefixMultiset<T>(s: seq<T>, m: nat)
    requires m <= |s|
    ensures multiset(s[..m]) <= multiset(s)
  {
    assert s == s[..m] + s[m..];
  }

  /** What `get_model_stats` reports. */
  datatype ModelStats = ModelStats(
    isTrained: bool,
    vocabularySize: nat,
    nGramSize: int,
    totalNGrams: nat,
    sentenceStarters: nat,
    mostCommonWords: seq<(string, int)>)

  /** A list has at most as many distinct elements as it has elements. */
  lemma {:induction false} MembersSize<T>(s: seq<T>)
    ensures |Members(s)| <= |s|
    decreases |s|
  {
    if s != [] {
      var init := s[..|s| - 1];
      MembersSize(init);
      MembersAppend(init, s[|s| - 1]);
      assert s == init + [s[|s| - 1]];
    }
  }

  /** `dict(pairs[:j + 1])` is `dict(pairs[:j])` with pair `j` stored last. */
  lemma FromPairsStep<K(!new), V>(ps: seq<(K, V)>, j: nat)
    requires j < |ps|
    ensures FromPairs(ps[..j + 1]) == FromPairs(ps[..j])[ps[j].0 := ps[j].1]
  {
    assert ps[..j + 1][..j] == ps[..j];
  }

  /** The list of a set's members, in an order of the implementation's choosing. */
  method ListOf<T>(s: set<T>) returns (r: seq<T>)
    ensures Members(r) == s
    ensures |r| == |s|
  {
    r := [];
    var left := s;
    while left != {}
      invariant left <= s
      invariant Members(r) == s - left
      invariant |r| == |s - left|
      decreases |left|
    {
      var x :| x in left;
      assert s - (left - {x}) == (s - left) + {x};
      MembersAppend(r, x);
      r := r + [x];
      left := left - {x};
    }
  }

  /** The `(key, value)` pairs of a map, in an order of the implementation's choosing. */
  method PairsOf<K(!new), V>(m: map<K, V>) returns (r: seq<(K, V)>)
    ensures FromPairs(r) == m
  {
    r := [];
    var left := m.Keys;
    while left != {}
      invariant left <= m.Keys
      invariant FromPairs(r) == map k | k in m.Keys - left :: m[k]
      decreases |left|
    {
      var x :| x in left;
      assert (r + [(x, m[x])])[..|r|] == r;
      r := r + [(x, m[x])];
      left := left - {x};
    }
  }

  function WeightOf(e: Entry): real { e.weight }

  /**
   * Every field once `train(sentences)` has counted a non-empty list: new counts, starters,
   * vocabulary, numbering and n-gram counts, not yet normalised or marked trained.
   */
  function TrainCounted(st: Snapshot, sentences: seq<string>): (r: Snapshot)
    ensures r.nGramSize == st.nGramSize && r.minWordCount == st.minWordCount && r.isTrained == st.isTrained
  {
    var ps := Processed(sentences, st.nGramSize);
    var counts := CountSentences(st.wordCounts, ps);
    var V := Threshold(counts, st.minWordCount);
    st.(wordCounts := counts, vocabulary := V,
        wordToId := IdsOf(SortedSet(V)), idToWord := NamesOf(SortedSet(V)),
        nGrams := CountAll(st.nGrams, ps, V, st.nGramSize),
        sentenceStarters := st.sentenceStarters + TitledStarters(ps))
  }

  /** `train(sentences)` raises no `ZeroDivisionError`: no counted inner dictionary sums to 0. */
  predicate TrainOk(st: Snapshot, sentences: seq<string>)
  {
    Normalizable(TrainCounted(st, sentences).nGrams)
  }

  /** Every field after `train(sentences)` on a non-empty list that raises nothing, from the fields before. */
  function TrainSpec(st: Snapshot, sentences: seq<string>): Snapshot
    requires TrainOk(st, sentences)
  {
    var c := TrainCounted(st, sentences);
    c.(nGrams := NormalizeAll(c.nGrams), isTrained := true)
  }

  /**
   * Training a model whose weights are all positive (a fresh one, or one trained before)
   * never divides by zero, and leaves the weights positive.
   */
  lemma TrainPositive(st: Snapshot, sentences: seq<string>)
    requires AllPositive(st.nGrams)
    ensures TrainOk(st, sentences)
    ensures AllPositive(TrainSpec(st, sentences).nGrams)
  {
    var c := TrainCounted(st, sentences);
    CountAllPositive(st.nGrams, Processed(sentences, st.nGramSize), c.vocabulary, st.nGramSize);
    NormalizeAllPositive(c.nGrams);
  }

  /**
   * After `train`, the vocabulary is exactly the words counted at least `min_word_count`
   * times, `word_to_id` numbers it in sorted order from 0 with `id_to_word` its inverse,
   * the model is trained, no sentence starter is added, and size and threshold are kept.
   */
  lemma TrainVocabulary(st: Snapshot, sentences: seq<string>)
    requires TrainOk(st, sentences)
    ensures var r := TrainSpec(st, sentences);
      && (forall w :: w in r.vocabulary <==> w in r.wordCounts && r.wordCounts[w] >= st.minWordCount)
      && IsNumbering(r.vocabulary, r.wordToId, r.idToWord)
      && r.isTrained
      && r.sentenceStarters == st.sentenceStarters
      && r.nGramSize == st.nGramSize && r.minWordCount == st.minWordCount
  {
    var r := TrainSpec(st, sentences);
    NumberingInverse(r.vocabulary);
    NoTitledStarters(sentences, st.nGramSize);
  }

  /** Each word's count grows by exactly its number of occurrences in the kept sentences. */
  lemma {:induction false} TrainCounts(c: map<string, int>, ps: seq<seq<string>>, w: string)
    ensures (if w in CountSentences(c, ps) then CountSentences(c, ps)[w] else 0)
      == (if w in c then c[w] else 0) + AllOccurrences(ps, w)
    decreases |ps|
  {
    if ps != [] {
      TrainCounts(c, ps[..|ps| - 1], w);
      CountWordsCounts(CountSentences(c, ps[..|ps| - 1]), ps[|ps| - 1], w);
    }
  }

  /** How often `w` occurs in all the sentences. */
  function AllOccurrences(ps: seq<seq<string>>, w: string): nat
    decreases |ps|
  {
    if ps == [] then 0 else AllOccurrences(ps[..|ps| - 1], w) + Occurrences(ps[|ps| - 1], w)
  }

  /**
   * Training keeps `n_grams` shaped: contexts of `n - 1` vocabulary tokens with vocabulary
   * next tokens, provided the old vocabulary was within the old threshold (as after any
   * earlier training, and for a fresh model).
   */
  lemma TrainKeepsShape(st: Snapshot, sentences: seq<string>)
    requires TrainOk(st, sentences)
    requires Shaped(st.nGrams, st.nGramSize, st.vocabulary)
    requires st.vocabulary <= Threshold(st.wordCounts, st.minWordCount)
    ensures var r := TrainSpec(st, sentences); Shaped(r.nGrams, r.nGramSize, r.vocabulary)
  {
    var ps := Processed(sentences, st.nGramSize);
    var r := TrainSpec(st, sentences);
    ThresholdGrows(st.wordCounts, ps, st.minWordCount);
    ShapedGrows(st.nGrams, st.nGramSize, st.vocabulary, r.vocabulary);
    CountAllShaped(st.nGrams, ps, r.vocabulary, st.nGramSize);
    var counted := CountAll(st.nGrams, ps, r.vocabulary, st.nGramSize);
    forall k | k in r.nGrams ensures Words(r.nGrams[k]) == Words(counted[k]) {
    }
  }

  /** After training every non-empty next-word distribution sums to 1. */
  lemma TrainSumsToOne(st: Snapshot, sentences: seq<string>, k: seq<string>)
    requires TrainOk(st, sentences)
    ensures var r := TrainSpec(st, sentences);
      k in r.nGrams && r.nGrams[k] != [] ==> Sum(r.nGrams[k]) == 1.0
  {
    var ps := Processed(sentences, st.nGramSize);
    var r := TrainSpec(st, sentences);
    var counted := CountAll(st.nGrams, ps, r.vocabulary, st.nGramSize);
    if k in r.nGrams && r.nGrams[k] != [] {
      assert Words(r.nGrams[k]) == Words(counted[k]);
      NormalizeAllSumsToOne(counted, k);
    }
  }

  /**
   * Training a fresh model sets each `P(w | k)` to the number of windows with context `k`
   * followed by `w` over the number of windows with context `k`, over the kept sentences
   * restricted to the vocabulary.
   */
  lemma FreshTrainEstimate(n: Positive, minCount: int, sentences: seq<string>, k: seq<string>, w: string)
    ensures TrainOk(Snapshot(n, minCount, map[], map[], {}, map[], map[], [], false), sentences)
    ensures var st := Snapshot(n, minCount, map[], map[], {}, map[], map[], [], false);
      var r := TrainSpec(st, sentences);
      var ps := Processed(sentences, n);
      k in r.nGrams ==>
        && AllContextCount(ps, r.vocabulary, n, k) > 0
        && Weight(r.nGrams[k], w) == AllPairCount(ps, r.vocabulary, n, k, w) as real / AllContextCount(ps, r.vocabulary, n, k) as real
  {
    var st := Snapshot(n, minCount, map[], map[], {}, map[], map[], [], false);
    TrainPositive(st, sentences);
    var r := TrainSpec(st, sentences);
    var ps := Processed(sentences, n);
    if k in r.nGrams {
      FreshTrainProbability(ps, r.vocabulary, n, k, w);
    }
  }

  /** The inner loop of the normalisation: `for word in d: d[word] /= total`. */
  method NormalizeDist(d: Dist) returns (nd: Dist)
    requires d == [] || Sum(d) != 0.0
    ensures nd == Normalize(d)
  {
    var total := Sum(d);
    nd := d;
    var m := 0;
    while m < |d|
      invariant 0 <= m <= |d| && |nd| == |d|
      invariant forall q :: 0 <= q < m ==> nd[q] == Entry(d[q].word, d[q].weight / total)
      invariant forall q :: m <= q < |d| ==> nd[q] == d[q]
    {
      nd := nd[m := Entry(nd[m].word, nd[m].weight / total)];
      m := m + 1;
    }
    if d != [] {
      assert nd == Scale(d, total);
    }
  }

  lemma CountAllStep(t0: Table, ps: seq<seq<string>>, j: nat, V: set<string>, n: int)
    requires n >= 1 && j < |ps|
    ensures CountAll(t0, ps[..j + 1], V, n) == CountSentence(CountAll(t0, ps[..j], V, n), ps[j], V, n)
  {
    assert ps[..j + 1][..j] == ps[..j];
  }

  /** One processed sentence of `train`'s counting loop: its vocabulary tokens, then its windows. */
  method CountSentenceInto(t0: Table, sentence: seq<string>, V: set<string>, n: int) returns (t: Table)
    requires n >= 1
    ensures t == CountSentence(t0, sentence, V, n)
  {
    t := t0;
    var filtered := FilterIn(sentence, V);
    if |filtered| >= n {
      t := CountSentenceWindows(t, filtered, n);
    }
  }

  /** The window loop of `train` over one filtered sentence: `n_grams[context][next_word] += 1`. */
  method CountSentenceWindows(t0: Table, filtered: seq<string>, n: int) returns (t: Table)
    requires n >= 1 && |filtered| >= n
    ensures t == CountWindows(t0, filtered, n, |filtered| - n + 1)
  {
    t := t0;
    var windows: nat := |filtered| - n + 1;
    var i := 0;
    while i < windows
      invariant 0 <= i <= windows
      invariant t == CountWindows(t0, filtered, n, i)
    {
      var nGram := WindowKey(filtered, n, i);
      var nextWord := filtered[i + n - 1];
      t := Bump(t, nGram, nextWord);
      i := i + 1;
    }
  }

  /** The n-gram counting loop of `train` over the processed sentences, restricted to the vocabulary. */
  method CountTable(t0: Table, processed: seq<seq<string>>, V: set<string>, n: int) returns (t: Table)
    requires n >= 1
    ensures t == CountAll(t0, processed, V, n)
  {
    t := t0;
    var j := 0;
    while j < |processed|
      invariant 0 <= j <= |processed|
      invariant t == CountAll(t0, processed[..j], V, n)
    {
      CountAllStep(t0, processed, j, V, n);
      t := CountSentenceInto(t, processed[j], V, n);
      j := j + 1;
    }
    TakeAll(processed);
  }

  /**
   * The normalisation loop of `train`, one context at a time. A non-empty dictionary whose
   * total is 0 raises `ZeroDivisionError` at its first division; the contexts visited before
   * it stay normalised.
   */
  method NormalizeTable(counted: Table) returns (t: Table, ok: bool)
    ensures ok <==> Normalizable(counted)
    ensures ok ==> t == NormalizeAll(counted)
    ensures !ok ==> PartlyNormalized(counted, t)
  {
    t := counted;
    var remaining := counted.Keys;
    while remaining != {}
      invariant remaining <= counted.Keys && t.Keys == counted.Keys
      invariant forall k :: k in counted && k !in remaining ==> counted[k] == [] || Sum(counted[k]) != 0.0
      invariant forall k :: k in counted ==> t[k] == if k in remaining then counted[k] else Normalize(counted[k])
      decreases |remaining|
    {
      var nGram :| nGram in remaining;
      var d := t[nGram];
      if d != [] && Sum(d) == 0.0 {
        return t, false;
      }
      var nd := NormalizeDist(d);
      t := t[nGram := nd];
      remaining := remaining - {nGram};
    }
    NormalizeAllAt(counted, t);
    ok := true;
  }

  /** The n-gram loop of `load_model`: `n_grams[key] = defaultdict(int, v)` for each saved pair. */
  method ReadNGrams(pairs: seq<(seq<string>, Dist)>) returns (table: Table)
    ensures table == FromPairs(pairs)
  {
    table := map[];
    var j := 0;
    while j < |pairs|
      invariant 0 <= j <= |pairs|
      invariant table == FromPairs(pairs[..j])
    {
      FromPairsStep(pairs, j);
      table := table[pairs[j].0 := pairs[j].1];
      j := j + 1;
    }
    TakeAll(pairs);
  }

  class Model {
    var nGramSize: Positive
    var minWordCount: int
    var wordToId: map<string, int>
    var idToWord: map<int, string>
    var vocabulary: set<string>
    var wordCounts: map<string, int>
    var nGrams: Table
    var sentenceStarters: seq<string>
    var isTrained: bool

    /** Every field `save_model` writes. */
    function State(): Snapshot
      reads this
    {
      Snapshot(nGramSize, minWordCount, wordToId, idToWord, vocabulary, wordCounts, nGrams, sentenceStarters, isTrained)
    }

    /** A fresh, untrained model. */
    constructor (n: Positive, minCount: int)
      ensures State() == Snapshot(n, minCount, map[], map[], {}, map[], map[], [], false)
    {
      nGramSize := n;
      minWordCount := minCount;
      wordToId := map[];
      idToWord := map[];
      vocabulary := {};
      wordCounts := map[];
      nGrams := map[];
      sentenceStarters := [];
      isTrained := false;
    }

    /** `for word in words: self.word_counts[word] += 1`. */
    method AddWordCounts(words: seq<string>)
      modifies this`wordCounts
      ensures wordCounts == CountWords(old(wordCounts), words)
    {
      var j := 0;
      while j < |words|
        invariant 0 <= j <= |words|
        invariant wordCounts == CountWords(old(wordCounts), words[..j])
      {
        var w := words[j];
        assert words[..j + 1][..j] == words[..j];
        wordCounts := wordCounts[w := (if w in wordCounts then wordCounts[w] else 0) + 1];
        j := j + 1;
      }
      assert words[..j] == words;
    }

    /** What `train` does with a sentence long enough to keep: note a title-cased first word, count its words. */
    method KeepSentence(words: seq<string>)
      modifies this`wordCounts, this`sentenceStarters
      ensures sentenceStarters == old(sentenceStarters) + TitledFirst(words)
      ensures wordCounts == CountWords(old(wordCounts), words)
    {
      if words != [] && IsTitle(words[0]) {
        sentenceStarters := sentenceStarters + [words[0]];
      }
      AddWordCounts(words);
    }

    /** One pass of the sentence loop of `train`: preprocess, and keep the sentence if it is long enough. */
    method TrainSentence(sentence: string, ghost done: seq<string>, processed: seq<seq<string>>,
                         ghost counts0: map<string, int>, ghost starters0: seq<string>)
      returns (kept: seq<seq<string>>)
      requires processed == Processed(done, nGramSize)
      requires wordCounts == CountSentences(counts0, processed)
      requires sentenceStarters == starters0 + TitledStarters(processed)
      modifies this`wordCounts, this`sentenceStarters
      ensures kept == Processed(done + [sentence], nGramSize)
      ensures wordCounts == CountSentences(counts0, kept)
      ensures sentenceStarters == starters0 + TitledStarters(kept)
    {
      var words := PreprocessSentence(sentence);
      ProcessedAppend(done, sentence, nGramSize);
      if |words| >= nGramSize {
        KeptStep(processed, words, counts0, starters0);
        kept := processed + [words];
        KeepSentence(words);
      } else {
        kept := processed;
      }
    }

    /** The sentence loop of `train`. */
    method ProcessSentences(sentences: seq<string>) returns (processed: seq<seq<string>>)
      modifies this`wordCounts, this`sentenceStarters
      ensures processed == Processed(sentences, nGramSize)
      ensures wordCounts == CountSentences(old(wordCounts), processed)
      ensures sentenceStarters == old(sentenceStarters) + TitledStarters(processed)
    {
      processed := [];
      var i := 0;
      while i < |sentences|
        invariant 0 <= i <= |sentences|
        invariant processed == Processed(sentences[..i], nGramSize)
        invariant wordCounts == CountSentences(old(wordCounts), processed)
        invariant sentenceStarters == old(sentenceStarters) + TitledStarters(processed)
      {
        TakeNext(sentences, i);
        processed := TrainSentence(sentences[i], sentences[..i], processed, old(wordCounts), old(sentenceStarters));
        i := i + 1;
      }
      TakeAll(sentences);
    }

    /** The rest of `train` once the sentences are processed: vocabulary, numbering, n-gram counts, probabilities. */
    method BuildModel(ghost st: Snapshot, ghost sentences: seq<string>, processed: seq<seq<string>>) returns (ok: bool)
      requires processed == Processed(sentences, st.nGramSize)
      requires State() == st.(wordCounts := CountSentences(st.wordCounts, processed),
                              sentenceStarters := st.sentenceStarters + TitledStarters(processed))
      modifies this
      ensures ok <==> TrainOk(st, sentences)
      ensures ok ==> State() == TrainSpec(st, sentences)
      ensures !ok ==> State() == TrainCounted(st, sentences).(nGrams := nGrams)
      ensures !ok ==> PartlyNormalized(TrainCounted(st, sentences).nGrams, nGrams)
    {
      var V := Threshold(wordCounts, minWordCount);
      var sorted := SortedSet(V);
      var counted := CountTable(nGrams, processed, V, nGramSize);
      var normalized;
      normalized, ok := NormalizeTable(counted);
      Restore(State().(vocabulary := V, wordToId := IdsOf(sorted), idToWord := NamesOf(sorted), nGrams := normalized,
        isTrained := isTrained || ok));
    }

    /**
     * `train`. It returns `false` where Python raises `ZeroDivisionError`, after every field
     * but `n_grams` and `is_trained` has been updated.
     */
    method Train(sentences: seq<string>) returns (ok: bool)
      modifies this
      ensures sentences == [] ==> ok && State() == old(State())
      ensures sentences != [] ==> (ok <==> TrainOk(old(State()), sentences))
      ensures sentences != [] && ok ==> State() == TrainSpec(old(State()), sentences)
      ensures sentences != [] && !ok ==> State() == TrainCounted(old(State()), sentences).(nGrams := nGrams)
      ensures sentences != [] && !ok ==> PartlyNormalized(TrainCounted(old(State()), sentences).nGrams, nGrams)
    {
      if sentences == [] {
        return true;
      }
      ghost var st := State();
      var processed := ProcessSentences(sentences);
      ok := BuildModel(st, sentences, processed);
    }

    /** `suggest_next_words`. */
    method SuggestNextWords(context: string, numSuggestions: int) returns (r: seq<Entry>)
      ensures !isTrained ==> r == UntrainedSuggestions
      ensures isTrained ==> r == Suggestions(nGrams, vocabulary, nGramSize, context, numSuggestions)
    {
      if !isTrained {
        return UntrainedSuggestions;
      }
      var words := PreprocessSentence(context);
      words := FilterIn(words, vocabulary);
      var contextTuple := Context(words, nGramSize);
      var nextWordProbs := Get(nGrams, contextTuple);
      if nextWordProbs == [] && |contextTuple| > 1 {
        contextTuple := contextTuple[1..];
        nextWordProbs := Get(nGrams, contextTuple);
      }
      var suggestions := SortDesc(nextWordProbs, WeightOf);
      r := PyTake(suggestions, numSuggestions);
    }

    /**
     * `get_model_stats`: the trained flag, vocabulary size, n-gram size and number of contexts;
     * the number of distinct starters, at most the number recorded; and the most common words,
     * up to ten distinct counted words with their counts, most frequent first.
     */
    function Stats(): (r: ModelStats)
      reads this
      ensures r.isTrained == isTrained && r.vocabularySize == |vocabulary|
      ensures r.nGramSize == nGramSize && r.totalNGrams == |nGrams|
      ensures r.sentenceStarters == |Members(sentenceStarters)| <= |sentenceStarters|
      ensures |r.mostCommonWords| == if |wordCounts| < 10 then |wordCounts| else 10
      ensures forall j :: 0 <= j < |r.mostCommonWords| ==>
        r.mostCommonWords[j].0 in wordCounts && wordCounts[r.mostCommonWords[j].0] == r.mostCommonWords[j].1
      ensures IsDescending(r.mostCommonWords, CountOf)
      ensures forall i, j :: 0 <= i < j < |r.mostCommonWords| ==> r.mostCommonWords[i].0 != r.mostCommonWords[j].0
    {
      MembersSize(sentenceStarters);
      ModelStats(isTrained, |vocabulary|, nGramSize, |nGrams|, |Members(sentenceStarters)|,
        if wordCounts == map[] then [] else MostCommon(wordCounts, 10))
    }

    /** `save_model`: everything written reads back as the current model. */
    method SaveModel() returns (d: ModelData)
      ensures Decode(d) == Ok(State())
    {
      var wordToIdPairs := PairsOf(wordToId);
      var idToWordPairs := PairsOf(idToWord);
      var vocabularyList := ListOf(vocabulary);
      var wordCountPairs := PairsOf(wordCounts);
      var nGramPairs := PairsOf(nGrams);
      ParseShowIdPairs(idToWordPairs);
      d := ModelData(nGramSize, minWordCount, wordToIdPairs, ShowIdPairs(idToWordPairs), vocabularyList,
        wordCountPairs, nGramPairs, sentenceStarters, isTrained);
    }

    /**
     * `load_model`: on success every field is what `d` describes; when an `id_to_word` key is not
     * an integer the error is raised after the size, threshold and `word_to_id` are already replaced.
     */
    method LoadModel(d: ModelData) returns (ok: bool)
      modifies this
      ensures ok <==> Decode(d).Ok?
      ensures ok ==> State() == Decode(d).value
      ensures !ok ==> State() == old(State()).(nGramSize := d.nGramSize, minWordCount := d.minWordCount,
        wordToId := FromPairs(d.wordToId))
    {
      var ids := ParseIdPairs(d.idToWord);
      if ids.None? {
        nGramSize, minWordCount, wordToId := d.nGramSize, d.minWordCount, FromPairs(d.wordToId);
        return false;
      }
      var table := ReadNGrams(d.nGrams);
      Restore(Snapshot(d.nGramSize, d.minWordCount, FromPairs(d.wordToId), FromPairs(ids.value), Members(d.vocabulary),
        FromPairs(d.wordCounts), table, d.sentenceStarters, d.isTrained));
      return true;
    }

    /** Overwrites every field with the given state. */
    method Restore(snap: Snapshot)
      modifies this
      ensures State() == snap
    {
      nGramSize, minWordCount, wordToId, idToWord, vocabulary := snap.nGramSize, snap.minWordCount, snap.wordToId,
        snap.idToWord, snap.vocabulary;
      wordCounts, nGrams, sentenceStarters, isTrained := snap.wordCounts, snap.nGrams, snap.sentenceStarters, snap.isTrained;
    }

    /** Loading what `save_model` wrote restores the model exactly. */
    method SaveThenLoad() returns (d: ModelData)
      modifies this
      ensures State() == old(State())
    {
      d := SaveModel();
      var ok := LoadModel(d);
    }

    /** The starting tokens of `generate_text` on a trained model. */
    method SeedWords(prompt: string, s: Sampler) returns (r: Result<seq<string>>)
      ensures r == Seed(prompt, vocabulary, sentenceStarters, s)
    {
      if prompt != "" {
        var words := PreprocessSentence(prompt);
        return Ok(FilterIn(words, vocabulary));
      }
      if sentenceStarters != [] {
        var distinct := SortedSet(set i | 0 <= i < |sentenceStarters| :: sentenceStarters[i]);
        assert sentenceStarters[0] in distinct;
        var starter := distinct[s.pick(0) % |distinct|];
        return Ok([Lower(starter)]);
      }
      var choice := VocabChoice(vocabulary, s.pick(0));
      if choice.Err? {
        return Err(choice.error);
      }
      return Ok([choice.value]);
    }

    /** `generate_text`: the fallback text before training, else the seed, the bounded loop, and formatting. */
    method GenerateText(prompt: string, maxLength: int, s: Sampler) returns (r: Result<string>)
      ensures !isTrained ==> r == Ok(UntrainedPrefix + Join(BasicWords(prompt, maxLength, s), " "))
      ensures isTrained ==> r == Generate(nGrams, vocabulary, nGramSize, sentenceStarters, prompt, maxLength, s)
    {
      if !isTrained {
        var text := GenerateBasicText(prompt, maxLength, s);
        return Ok(text);
      }
      var seed := SeedWords(prompt, s);
      if seed.Err? {
        return Err(seed.error);
      }
      var generated := GenerationLoop(nGrams, vocabulary, nGramSize, seed.value, if maxLength < 0 then 0 else maxLength, s);
      if generated.Err? {
        return Err(generated.error);
      }
      var text := FormatOutput(generated.value);
      return Ok(text);
    }

    /** `complete_sentence`: generation from the partial sentence as the prompt. */
    method CompleteSentence(partial: string, maxLength: int, s: Sampler) returns (r: Result<string>)
      ensures !isTrained ==> r == Ok(UntrainedPrefix + Join(BasicWords(partial, maxLength, s), " "))
      ensures isTrained ==> r == Generate(nGrams, vocabulary, nGramSize, sentenceStarters, partial, maxLength, s)
    {
      r := GenerateText(partial, maxLength, s);
    }
  }
}
