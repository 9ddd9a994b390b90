/**
 * Text generation of the language model as values: the context window and its
 * single backoff step, the sampler, the bounded generation loop, the seed taken
 * from the prompt, the formatting of tokens into text, and the untrained fallback.
 * Every random choice is an injected value: `pick(i)` stands for the index a
 * `random.choice` returns at step `i` (taken modulo the list length) and `draw(i)`
 * for the value `random.random()` returns at step `i`.
 */
module Generation {
  import opened PyStr
  import opened Ordering
  import opened Wrappers
  import opened Tokenizer
  import opened NGram

  /** The sampling parameters: the temperature, `p -> math.pow(p, 1.0 / temperature)`, and the random source. */
  datatype Sampler = Sampler(temperature: real, power: real -> real, pick: nat -> nat, draw: nat -> real)

  /**
   * `tuple(g[-(n - 1):])` when `len(g) >= n - 1`, else `tuple(g)`. For `n == 1` the slice
   * `g[-0:]` is the whole list.
   */
  function Context(g: seq<string>, n: int): (r: seq<string>)
    requires n >= 1
    ensures n == 1 ==> r == g
    ensures n >= 2 ==> |r| == (if |g| < n - 1 then |g| else n - 1) && r == g[|g| - |r|..]
  {
    if n == 1 then g
    else if |g| >= n - 1 then g[|g| - (n - 1)..]
    else g
  }

  /** The distribution used for context `ctx`: its own, or after dropping its oldest token once. */
  function Resolve(t: Table, ctx: seq<string>): (d: Dist)
    ensures d == [] || d == Get(t, ctx) || (|ctx| > 1 && d == Get(t, ctx[1..]))
    ensures Get(t, ctx) != [] ==> d == Get(t, ctx)
  {
    var d := Get(t, ctx);
    if d == [] && |ctx| > 1 then Get(t, ctx[1..]) else d
  }

  /** The error `random.choice` raises on an empty list. */
  const EmptyChoice: string := "IndexError: Cannot choose from an empty sequence"

  /** `random.choice(list(V))`, or the `IndexError` it raises on an empty vocabulary. */
  function VocabChoice(V: set<string>, p: nat): (r: Result<string>)
    ensures r.Ok? <==> V != {}
    ensures r.Ok? ==> r.value in V
  {
    if V == {} then Err(EmptyChoice)
    else Ok(SortedSet(V)[p % |V|])
  }

  function Weights(d: Dist): (r: seq<real>)
    ensures |r| == |d|
    ensures forall i :: 0 <= i < |d| ==> r[i] == d[i].weight
  {
    seq(|d|, i requires 0 <= i < |d| => d[i].weight)
  }

  /** `sum(ps)`. */
  function SumR(ps: seq<real>): real
    decreases |ps|
  {
    if ps == [] then 0.0 else ps[0] + SumR(ps[1..])
  }

  /** `max(ps)`. */
  function MaxR(ps: seq<real>): (m: real)
    requires ps != []
    ensures forall i :: 0 <= i < |ps| ==> ps[i] <= m
    ensures exists i :: 0 <= i < |ps| && ps[i] == m
    decreases |ps|
  {
    if |ps| == 1 then ps[0]
    else
      var m := MaxR(ps[1..]);
      assert forall i :: 1 <= i < |ps| ==> ps[i] == ps[1..][i - 1];
      if ps[0] >= m then ps[0] else m
  }

  /** `ps.index(m)`: the first position holding `m`. */
  function IndexOf(ps: seq<real>, m: real): (i: nat)
    requires exists j :: 0 <= j < |ps| && ps[j] == m
    ensures i < |ps| && ps[i] == m
    ensures forall j :: 0 <= j < i ==> ps[j] != m
    decreases |ps|
  {
    if ps[0] == m then 0
    else
      assert exists j :: 0 <= j < |ps[1..]| && ps[1..][j] == m by {
        var j :| 0 <= j < |ps| && ps[j] == m;
        assert ps[1..][j - 1] == m;
      }
      1 + IndexOf(ps[1..], m)
  }

  /** `probs.index(max(probs))`: the first position of a largest value. */
  function FirstMax(ps: seq<real>): (i: nat)
    requires ps != []
    ensures i < |ps|
    ensures forall j :: 0 <= j < |ps| ==> ps[j] <= ps[i]
    ensures forall j :: 0 <= j < i ==> ps[j] < ps[i]
  {
    IndexOf(ps, MaxR(ps))
  }

  /** `[p / total for p in ps]`. */
  function Divide(ps: seq<real>, total: real): (r: seq<real>)
    requires total != 0.0
    ensures |r| == |ps|
    ensures forall i :: 0 <= i < |ps| ==> r[i] == ps[i] / total
  {
    seq(|ps|, i requires 0 <= i < |ps| => ps[i] / total)
  }

  /** `[power(p) for p in ps]`. */
  function Powered(ps: seq<real>, power: real -> real): (r: seq<real>)
    ensures |r| == |ps|
    ensures forall i :: 0 <= i < |ps| ==> r[i] == power(ps[i])
  {
    seq(|ps|, i requires 0 <= i < |ps| => power(ps[i]))
  }

  /** The cumulative loop: the first position at which the running total, started at `acc`, reaches `draw`. */
  function CumFind(ps: seq<real>, draw: real, acc: real): (r: Option<nat>)
    ensures r.Some? ==> r.value < |ps|
    decreases |ps|
  {
    if ps == [] then None
    else if draw <= acc + ps[0] then Some(0)
    else match CumFind(ps[1..], draw, acc + ps[0])
      case None => None
      case Some(j) => Some(j + 1)
  }

  /** The weights actually sampled from: unchanged at temperature 1, otherwise raised to the power `1 / temperature`. */
  function Tempered(d: Dist, s: Sampler): seq<real>
  {
    if s.temperature != 1.0 then Powered(Weights(d), s.power) else Weights(d)
  }

  /**
   * `_sample_word_builtin` at step `i`: greedy at temperature 0; otherwise a uniform choice
   * when the weights sum to 0, else the cumulative draw with the last word as fallback.
   */
  function SampleSpec(d: Dist, s: Sampler, i: nat): (w: string)
    requires d != []
    ensures w in Words(d)
  {
    if s.temperature == 0.0 then d[FirstMax(Weights(d))].word
    else
      var ps := Tempered(d, s);
      var total := SumR(ps);
      if total == 0.0 then d[s.pick(i) % |d|].word
      else match CumFind(Divide(ps, total), s.draw(i), 0.0)
        case Some(j) => d[j].word
        case None => d[|d| - 1].word
  }

  lemma {:induction false} SumDivide(ps: seq<real>, total: real)
    requires total != 0.0
    ensures SumR(Divide(ps, total)) == SumR(ps) / total
    decreases |ps|
  {
    if ps != [] {
      SumDivide(ps[1..], total);
      assert Divide(ps, total)[1..] == Divide(ps[1..], total);
    }
  }

  /** The running total reaches any draw not above the full total, so the loop returns inside the list. */
  lemma {:induction false} CumFindReaches(ps: seq<real>, draw: real, acc: real)
    requires ps != [] && draw <= acc + SumR(ps)
    ensures CumFind(ps, draw, acc).Some?
    decreases |ps|
  {
    if draw > acc + ps[0] {
      CumFindReaches(ps[1..], draw, acc + ps[0]);
    }
  }

  /**
   * With exact arithmetic the fallback `words[-1]` is never needed: for a draw in `[0, 1]`,
   * normalised weights summing to 1 always reach it.
   */
  lemma SampleNoFallback(d: Dist, s: Sampler, i: nat)
    requires d != [] && s.temperature != 0.0 && SumR(Tempered(d, s)) != 0.0 && s.draw(i) <= 1.0
    ensures CumFind(Divide(Tempered(d, s), SumR(Tempered(d, s))), s.draw(i), 0.0).Some?
  {
    var ps := Tempered(d, s);
    var total := SumR(ps);
    SumDivide(ps, total);
    assert total / total == 1.0;
    CumFindReaches(Divide(ps, total), s.draw(i), 0.0);
  }

  /** At temperature 0 the sampler returns the first word holding the largest weight. */
  lemma SampleGreedy(d: Dist, s: Sampler, i: nat)
    requires d != [] && s.temperature == 0.0
    ensures exists j :: (0 <= j < |d| && SampleSpec(d, s, i) == d[j].word
      && (forall k :: 0 <= k < |d| ==> d[k].weight <= d[j].weight)
      && (forall k :: 0 <= k < j ==> d[k].weight < d[j].weight))
  {
    var j := FirstMax(Weights(d));
    assert SampleSpec(d, s, i) == d[j].word;
  }

  /** One iteration of the generation loop at step `i`: look up the context, back off once, then sample or pick a vocabulary word. */
  function Step(t: Table, V: set<string>, n: int, s: Sampler, g: seq<string>, i: nat): (r: Result<string>)
    requires n >= 1
  {
    var d := Resolve(t, Context(g, n));
    if d == [] then VocabChoice(V, s.pick(i)) else Ok(SampleSpec(d, s, i))
  }

  /** The generation loop driven by `step`, from `g` with `k` iterations left, the next one being step `i`; it stops right after a token `in '.!?'`. */
  function RunWith(step: (seq<string>, nat) -> Result<string>, g: seq<string>, k: nat, i: nat): Result<seq<string>>
    decreases k
  {
    if k == 0 then Ok(g)
    else match step(g, i)
      case Err(e) => Err(e)
      case Ok(w) => if InTerminals(w) then Ok(g + [w]) else RunWith(step, g + [w], k - 1, i + 1)
  }

  /** `Step` over the model's table, as the function that drives the loop. */
  function StepOf(t: Table, V: set<string>, n: int, s: Sampler): (seq<string>, nat) -> Result<string>
    requires n >= 1
  {
    (g: seq<string>, i: nat) => Step(t, V, n, s, g, i)
  }

  /** `generate_text`'s loop `for _ in range(k)`, over the model's table. */
  function Run(t: Table, V: set<string>, n: int, s: Sampler, g: seq<string>, k: nat, i: nat): Result<seq<string>>
    requires n >= 1
  {
    RunWith(StepOf(t, V, n, s), g, k, i)
  }

  /** The loop keeps `g` as a prefix and appends at most `k` tokens. */
  lemma {:induction false} RunLength(step: (seq<string>, nat) -> Result<string>, g: seq<string>, k: nat, i: nat)
    ensures var r := RunWith(step, g, k, i);
      r.Ok? ==> g <= r.value && |r.value| <= |g| + k
    decreases k
  {
    if k > 0 && step(g, i).Ok? && !InTerminals(step(g, i).value) {
      var g2 := g + [step(g, i).value];
      RunLength(step, g2, k - 1, i + 1);
      var r := RunWith(step, g2, k - 1, i + 1);
      if r.Ok? {
        assert r.value[..|g|] == r.value[..|g2|][..|g|];
      }
    }
  }

  /** The loop stops right after the first appended token `in '.!?'`, and early only there. */
  lemma {:induction false} RunStops(step: (seq<string>, nat) -> Result<string>, g: seq<string>, k: nat, i: nat)
    ensures var r := RunWith(step, g, k, i);
      r.Ok? ==>
        && (forall j :: |g| <= j < |r.value| - 1 ==> !InTerminals(r.value[j]))
        && (|r.value| < |g| + k ==> |r.value| > |g| && InTerminals(r.value[|r.value| - 1]))
    decreases k
  {
    if k > 0 && step(g, i).Ok? && !InTerminals(step(g, i).value) {
      var g2 := g + [step(g, i).value];
      RunStops(step, g2, k - 1, i + 1);
      RunLength(step, g2, k - 1, i + 1);
      var r := RunWith(step, g2, k - 1, i + 1);
      if r.Ok? {
        assert r.value[|g|] == r.value[..|g2|][|g|];
      }
    }
  }

  /** When every step yields a vocabulary word, so does every token the loop appends. */
  lemma {:induction false} RunInSet(step: (seq<string>, nat) -> Result<string>, V: set<string>, g: seq<string>, k: nat, i: nat)
    requires forall g', i' :: step(g', i').Ok? ==> step(g', i').value in V
    ensures var r := RunWith(step, g, k, i);
      r.Ok? ==> |r.value| >= |g| && forall j :: |g| <= j < |r.value| ==> r.value[j] in V
    decreases k
  {
    RunLength(step, g, k, i);
    if k > 0 && step(g, i).Ok? && !InTerminals(step(g, i).value) {
      var g2 := g + [step(g, i).value];
      RunInSet(step, V, g2, k - 1, i + 1);
      RunLength(step, g2, k - 1, i + 1);
      var r := RunWith(step, g2, k - 1, i + 1);
      if r.Ok? {
        assert r.value[|g|] == r.value[..|g2|][|g|];
      }
    }
  }

  /** On a shaped table every step yields a vocabulary word. */
  lemma StepInVocabulary(t: Table, V: set<string>, n: int, s: Sampler, g: seq<string>, i: nat)
    requires n >= 1 && Shaped(t, n, V)
    ensures Step(t, V, n, s, g, i).Ok? ==> Step(t, V, n, s, g, i).value in V
  {
    var ctx := Context(g, n);
    var d := Resolve(t, ctx);
    if d != [] {
      var key := if d == Get(t, ctx) then ctx else ctx[1..];
      assert key in t && d == t[key];
      assert SampleSpec(d, s, i) in Words(d);
    }
  }

  /** On a shaped table every token the generation loop appends is a vocabulary word. */
  lemma RunInVocabulary(t: Table, V: set<string>, n: int, s: Sampler, g: seq<string>, k: nat, i: nat)
    requires n >= 1 && Shaped(t, n, V)
    ensures var r := Run(t, V, n, s, g, k, i);
      r.Ok? ==> |r.value| >= |g| && forall j :: |g| <= j < |r.value| ==> r.value[j] in V
  {
    var step := StepOf(t, V, n, s);
    forall g': seq<string>, i': nat ensures step(g', i').Ok? ==> step(g', i').value in V {
      StepInVocabulary(t, V, n, s, g', i');
    }
    RunInSet(step, V, g, k, i);
  }

  /** The loop fails only as its steps do: with error `e`, and only where `c` holds. */
  lemma {:induction false} RunWithFails(step: (seq<string>, nat) -> Result<string>, c: bool, e: string, g: seq<string>, k: nat, i: nat)
    requires forall g', i' :: step(g', i').Err? ==> c && step(g', i').error == e
    ensures RunWith(step, g, k, i).Err? ==> c && RunWith(step, g, k, i).error == e
    decreases k
  {
    if k > 0 && step(g, i).Ok? && !InTerminals(step(g, i).value) {
      RunWithFails(step, c, e, g + [step(g, i).value], k - 1, i + 1);
    }
  }

  /** The generation loop fails only by choosing from an empty vocabulary. */
  lemma RunFailsOnEmpty(t: Table, V: set<string>, n: int, s: Sampler, g: seq<string>, k: nat, i: nat)
    requires n >= 1
    ensures Run(t, V, n, s, g, k, i).Err? ==> V == {} && Run(t, V, n, s, g, k, i).error == EmptyChoice
  {
    var step := StepOf(t, V, n, s);
    forall g': seq<string>, i': nat ensures step(g', i').Err? ==> V == {} && step(g', i').error == EmptyChoice {
      assert step(g', i') == Step(t, V, n, s, g', i');
    }
    RunWithFails(step, V == {}, EmptyChoice, g, k, i);
  }

  /**
   * The starting tokens: the prompt's vocabulary tokens for a non-empty prompt (possibly
   * none), else a lower-cased starter, else a random vocabulary word.
   */
  function Seed(prompt: string, V: set<string>, starters: seq<string>, s: Sampler): Result<seq<string>>
  {
    if prompt != "" then Ok(FilterIn(Preprocess(prompt), V))
    else if starters != [] then
      var distinct := SortedSet(set i | 0 <= i < |starters| :: starters[i]);
      assert starters[0] in distinct;
      Ok([Lower(distinct[s.pick(0) % |distinct|])])
    else match VocabChoice(V, s.pick(0))
      case Err(e) => Err(e)
      case Ok(w) => Ok([w])
  }

  /**
   * A random seed is used only for the empty prompt; a non-empty prompt contributes its own
   * vocabulary tokens, in order. With no prompt the seed is one lower-cased sentence starter
   * when there are starters, else one vocabulary word, which fails only for an empty vocabulary.
   */
  lemma SeedFromPrompt(prompt: string, V: set<string>, starters: seq<string>, s: Sampler)
    ensures prompt != "" ==> Seed(prompt, V, starters, s) == Ok(FilterIn(Preprocess(prompt), V))
    ensures prompt != "" ==> forall w :: w in Seed(prompt, V, starters, s).value ==> w in V
    ensures prompt == "" ==> Seed(prompt, V, starters, s).Ok? ==> |Seed(prompt, V, starters, s).value| == 1
    ensures prompt == "" && starters != [] ==>
      Seed(prompt, V, starters, s).Ok? &&
      exists i :: 0 <= i < |starters| && Seed(prompt, V, starters, s).value == [Lower(starters[i])]
    ensures prompt == "" && starters == [] ==> (Seed(prompt, V, starters, s).Ok? <==> V != {})
    ensures prompt == "" && starters == [] && Seed(prompt, V, starters, s).Ok? ==>
      Seed(prompt, V, starters, s).value[0] in V
  {
    if prompt == "" && starters != [] {
      var members := set i | 0 <= i < |starters| :: starters[i];
      var distinct := SortedSet(members);
      assert starters[0] in members;
      var w := distinct[s.pick(0) % |distinct|];
      assert w in members;
      var i :| 0 <= i < |starters| && starters[i] == w;
      assert Seed(prompt, V, starters, s).value == [Lower(starters[i])];
    }
  }

  /** The pieces of `_format_output` before joining: a token `in '.!?'` is glued to the piece before it. */
  function Pieces(words: seq<string>): (p: seq<string>)
    requires words != []
    ensures p != []
    decreases |words|
  {
    if |words| == 1 then [Capitalize(words[0])]
    else PieceStep(Pieces(words[..|words| - 1]), words[|words| - 1])
  }

  /** One token of `_format_output`: glued onto the last piece when it is `in '.!?'`, a new piece otherwise. */
  function PieceStep(p: seq<string>, w: string): (q: seq<string>)
    requires p != []
    ensures q != []
  {
    if InTerminals(w) then p[..|p| - 1] + [p[|p| - 1] + w] else p + [w]
  }

  /** Either way the concatenation of the pieces grows by exactly the token. */
  lemma PieceStepConcat(p: seq<string>, w: string)
    requires p != []
    ensures Concat(PieceStep(p, w)) == Concat(p) + w
  {
    if InTerminals(w) { GlueLast(p, w); } else { AppendPiece(p, w); }
  }

  /** The concatenation of a list of strings. */
  function Concat(ss: seq<string>): string
    decreases |ss|
  {
    if ss == [] then [] else Concat(ss[..|ss| - 1]) + ss[|ss| - 1]
  }

  /** The tokens after the first that start a new piece. */
  function Separate(words: seq<string>): nat
    decreases |words|
  {
    if words == [] then 0 else Separate(words[..|words| - 1]) + (if InTerminals(words[|words| - 1]) then 0 else 1)
  }

  /** Formatting loses and adds nothing but the capitalisation of the first token: the pieces concatenate to the tokens. */
  lemma {:induction false} PiecesContent(words: seq<string>)
    requires words != []
    ensures Concat(Pieces(words)) == Capitalize(words[0]) + Concat(words[1..])
    decreases |words|
  {
    if |words| > 1 {
      var init := words[..|words| - 1];
      var w := words[|words| - 1];
      PiecesContent(init);
      ConcatLastOf(words[1..]);
      assert words[1..][..|words[1..]| - 1] == init[1..];
      PieceStepConcat(Pieces(init), w);
      assert Concat(Pieces(words)) == Concat(Pieces(init)) + w;
    }
  }

  lemma ConcatLastOf(ss: seq<string>)
    requires ss != []
    ensures Concat(ss) == Concat(ss[..|ss| - 1]) + ss[|ss| - 1]
  {
  }

  /** Gluing a token onto the last piece extends the concatenation by that token. */
  lemma GlueLast(p: seq<string>, w: string)
    requires p != []
    ensures Concat(p[..|p| - 1] + [p[|p| - 1] + w]) == Concat(p) + w
  {
    var init := p[..|p| - 1];
    var last := p[|p| - 1];
    assert p == init + [last];
    AppendPiece(init, last + w);
    AppendPiece(init, last);
    StrAssoc(Concat(init), last, w);
  }

  lemma StrAssoc(a: string, b: string, c: string)
    ensures a + (b + c) == (a + b) + c
  {
  }

  /** Adding a token as a new piece extends the concatenation by that token. */
  lemma AppendPiece(p: seq<string>, w: string)
    ensures Concat(p + [w]) == Concat(p) + w
  {
    assert (p + [w])[..|p|] == p;
  }

  /** There is one piece for the first token and one for each later token not `in '.!?'`. */
  lemma {:induction false} PiecesCount(words: seq<string>)
    requires words != []
    ensures |Pieces(words)| == 1 + Separate(words[1..])
    decreases |words|
  {
    if |words| > 1 {
      var init := words[..|words| - 1];
      PiecesCount(init);
      assert init[1..] == words[1..][..|words[1..]| - 1];
    }
  }

  /** A whitespace character directly before one of `.`, `!`, `?`. */
  predicate SpaceBeforeTerminal(s: string)
  {
    exists i :: 0 <= i < |s| - 1 && IsSpace(s[i]) && IsTerminalChar(s[i + 1])
  }

  /** `re.sub(r'\s+([.!?])', r'\1', s)`: a whitespace run followed by a sentence end is removed. */
  function DropSpaceBefore(s: string): (r: string)
    ensures !SpaceBeforeTerminal(r)
    ensures r == [] || (IsSpace(r[0]) ==> s != [] && IsSpace(s[0]))
    decreases |s|
  {
    if s == [] then []
    else if IsSpace(s[0]) then
      var k := LeadingSpaces(s);
      if k < |s| && IsTerminalChar(s[k]) then [s[k]] + DropSpaceBefore(s[k + 1..])
      else
        var rest := DropSpaceBefore(s[k..]);
        assert rest == [] || !IsSpace(rest[0]);
        assert k == |s| || !IsTerminalChar(s[k]) ==> rest == [] || !IsTerminalChar(rest[0]);
        AppendRunNoSpaceBefore(s[..k], rest);
        s[..k] + rest
    else [s[0]] + DropSpaceBefore(s[1..])
  }

  lemma AppendRunNoSpaceBefore(a: string, rest: string)
    requires !SpaceBeforeTerminal(rest)
    requires rest == [] || (!IsSpace(rest[0]) && !IsTerminalChar(rest[0]))
    requires forall i :: 0 <= i < |a| ==> IsSpace(a[i])
    ensures !SpaceBeforeTerminal(a + rest)
  {
    var r := a + rest;
    forall i | 0 <= i < |r| - 1 && IsSpace(r[i]) ensures !IsTerminalChar(r[i + 1]) {
      if i >= |a| { assert r[i] == rest[i - |a|] && r[i + 1] == rest[i + 1 - |a|]; }
      else if i + 1 < |a| { assert IsSpace(r[i + 1]); }
    }
  }

  /** `_format_output`. */
  function Format(words: seq<string>): (r: string)
    ensures words == [] ==> r == []
    ensures !SpaceBeforeTerminal(r)
  {
    if words == [] then [] else DropSpaceBefore(Join(Pieces(words), " "))
  }

  /** The characters of `s` that are not whitespace, in order. */
  function NonSpace(s: string): (r: string)
    ensures NoSpace(r)
    decreases |s|
  {
    if s == [] then []
    else if IsSpace(s[0]) then NonSpace(s[1..])
    else [s[0]] + NonSpace(s[1..])
  }

  lemma {:induction false} NonSpaceAppend(a: string, b: string)
    ensures NonSpace(a + b) == NonSpace(a) + NonSpace(b)
    decreases |a|
  {
    if a == [] {
      assert a + b == b;
    } else {
      assert (a + b)[0] == a[0] && (a + b)[1..] == a[1..] + b;
      NonSpaceAppend(a[1..], b);
    }
  }

  lemma {:induction false} NonSpaceOfSpaces(a: string)
    requires forall i :: 0 <= i < |a| ==> IsSpace(a[i])
    ensures NonSpace(a) == []
    decreases |a|
  {
    if a != [] {
      NonSpaceOfSpaces(a[1..]);
    }
  }

  /** The substitution deletes only whitespace: the other characters stay, in order. */
  lemma {:induction false} DropSpaceBeforeContent(s: string)
    ensures NonSpace(DropSpaceBefore(s)) == NonSpace(s)
    decreases |s|
  {
    if s != [] {
      if IsSpace(s[0]) {
        var k := LeadingSpaces(s);
        assert s == s[..k] + s[k..];
        NonSpaceAppend(s[..k], s[k..]);
        NonSpaceOfSpaces(s[..k]);
        if k < |s| && IsTerminalChar(s[k]) {
          DropSpaceBeforeContent(s[k + 1..]);
          NonSpaceAppend([s[k]], DropSpaceBefore(s[k + 1..]));
          assert s[k..][1..] == s[k + 1..];
        } else {
          DropSpaceBeforeContent(s[k..]);
          NonSpaceAppend(s[..k], DropSpaceBefore(s[k..]));
        }
      } else {
        DropSpaceBeforeContent(s[1..]);
        NonSpaceAppend([s[0]], DropSpaceBefore(s[1..]));
      }
    }
  }

  /** A suffix of a string with no whitespace before a sentence end has none either. */
  lemma NoSpaceBeforeSuffix(s: string, j: nat)
    requires j <= |s| && !SpaceBeforeTerminal(s)
    ensures !SpaceBeforeTerminal(s[j..])
  {
    var t := s[j..];
    forall i | 0 <= i < |t| - 1 && IsSpace(t[i]) ensures !IsTerminalChar(t[i + 1]) {
      assert t[i] == s[j + i] && t[i + 1] == s[j + i + 1];
    }
  }

  /** Where no whitespace precedes a sentence end, the substitution changes nothing. */
  lemma {:induction false} DropSpaceBeforeIdentity(s: string)
    requires !SpaceBeforeTerminal(s)
    ensures DropSpaceBefore(s) == s
    decreases |s|
  {
    if s != [] {
      if IsSpace(s[0]) {
        var k := LeadingSpaces(s);
        if k < |s| {
          assert IsSpace(s[k - 1]);
          assert !IsTerminalChar(s[k]);
        }
        NoSpaceBeforeSuffix(s, k);
        DropSpaceBeforeIdentity(s[k..]);
        assert s[..k] + s[k..] == s;
      } else {
        NoSpaceBeforeSuffix(s, 1);
        DropSpaceBeforeIdentity(s[1..]);
        assert [s[0]] + s[1..] == s;
      }
    }
  }

  /** `_format_output` loses and adds nothing but whitespace and the first token's capitalisation. */
  lemma FormatContent(words: seq<string>)
    requires words != []
    ensures NonSpace(Format(words)) == NonSpace(Capitalize(words[0]) + Concat(words[1..]))
  {
    var ps := Pieces(words);
    DropSpaceBeforeContent(Join(ps, " "));
    JoinContent(ps);
    PiecesContent(words);
  }

  lemma {:induction false} ConcatFront(a: string, rest: seq<string>)
    ensures Concat([a] + rest) == a + Concat(rest)
    decreases |rest|
  {
    if rest != [] {
      var init := rest[..|rest| - 1];
      ConcatFront(a, init);
      assert ([a] + rest)[..|rest|] == [a] + init;
    }
  }

  /** Joining with spaces adds only whitespace. */
  lemma {:induction false} JoinContent(ps: seq<string>)
    ensures NonSpace(Join(ps, " ")) == NonSpace(Concat(ps))
    decreases |ps|
  {
    if |ps| == 1 {
      assert ps[..0] == [];
      assert Concat(ps) == Concat(ps[..0]) + ps[0] == ps[0];
    } else if |ps| > 1 {
      var rest := ps[1..];
      JoinContent(rest);
      assert ps == [ps[0]] + rest;
      ConcatFront(ps[0], rest);
      NonSpaceAppend(ps[0] + " ", Join(rest, " "));
      assert NonSpace(" ") == [];
      NonSpaceAppend(ps[0], " ");
      NonSpaceAppend(ps[0], Concat(rest));
    }
  }

  /**
   * Tokens that hold no whitespace, where every later token that is not glued (not `in '.!?'`)
   * does not start with a sentence end.
   */
  predicate PlainTokens(words: seq<string>)
  {
    (forall i :: 0 <= i < |words| ==> NoSpace(words[i])) &&
    (forall i :: 1 <= i < |words| && !InTerminals(words[i]) ==> !IsTerminalChar(words[i][0]))
  }

  /** Pieces without whitespace, every piece after the first starting with something other than a sentence end. */
  predicate PlainPieces(ps: seq<string>)
  {
    (forall i :: 0 <= i < |ps| ==> NoSpace(ps[i])) &&
    (forall i :: 1 <= i < |ps| ==> ps[i] != [] && !IsTerminalChar(ps[i][0]))
  }

  /** The preprocessed tokens the model generates from are plain. */
  lemma ModelTokensPlain(words: seq<string>)
    requires forall i :: 0 <= i < |words| ==> IsModelToken(words[i])
    ensures PlainTokens(words)
  {
    forall i | 1 <= i < |words| && !InTerminals(words[i]) ensures !IsTerminalChar(words[i][0]) {
      assert IsModelToken(words[i]);
    }
  }

  lemma CapitalizeNoSpace(w: string)
    requires NoSpace(w)
    ensures NoSpace(Capitalize(w))
  {
    var r := Capitalize(w);
    forall i | 0 <= i < |r| ensures !IsSpace(r[i]) {
      if i > 0 { assert r[i] == r[1..][i - 1] == LowerChar(w[1..][i - 1]); }
    }
  }

  lemma {:induction false} PiecesPlain(words: seq<string>)
    requires words != [] && PlainTokens(words)
    ensures PlainPieces(Pieces(words))
    decreases |words|
  {
    if |words| == 1 {
      CapitalizeNoSpace(words[0]);
    } else {
      var init := words[..|words| - 1];
      var w := words[|words| - 1];
      assert PlainTokens(init) by {
        forall i | 1 <= i < |init| && !InTerminals(init[i]) ensures !IsTerminalChar(init[i][0]) {
          assert init[i] == words[i];
        }
      }
      PiecesPlain(init);
      var p := Pieces(init);
      if InTerminals(w) {
        var q := p[..|p| - 1] + [p[|p| - 1] + w];
        forall i | 0 <= i < |q| ensures NoSpace(q[i]) && (i >= 1 ==> q[i] != [] && !IsTerminalChar(q[i][0])) {
          if i == |q| - 1 {
            assert q[i] == p[i] + w;
            assert forall j :: 0 <= j < |q[i]| ==> q[i][j] == if j < |p[i]| then p[i][j] else w[j - |p[i]|];
          } else {
            assert q[i] == p[i];
          }
        }
      }
    }
  }

  /** A plain list of pieces joined by single spaces has no whitespace before a sentence end. */
  lemma {:induction false} JoinPlain(ps: seq<string>)
    requires PlainPieces(ps)
    ensures !SpaceBeforeTerminal(Join(ps, " "))
    decreases |ps|
  {
    if |ps| > 1 {
      var rest := ps[1..];
      assert PlainPieces(rest) by {
        forall i | 0 <= i < |rest| ensures NoSpace(rest[i]) && (i >= 1 ==> rest[i] != [] && !IsTerminalChar(rest[i][0])) {
          assert rest[i] == ps[i + 1];
        }
      }
      JoinPlain(rest);
      var a := ps[0] + " ";
      var b := Join(rest, " ");
      assert b != [] && b[0] == ps[1][0];
      var r := a + b;
      assert forall i :: 0 <= i < |ps[0]| ==> r[i] == ps[0][i];
      forall i | 0 <= i < |r| - 1 && IsSpace(r[i]) ensures !IsTerminalChar(r[i + 1]) {
        if i > |ps[0]| {
          assert r[i] == b[i - |a|] && r[i + 1] == b[i + 1 - |a|];
        }
      }
      assert Join(ps, " ") == r;
    }
  }

  /**
   * On plain tokens, such as the model's preprocessed ones, `_format_output` is the pieces
   * joined by single spaces: the substitution has nothing to remove.
   */
  lemma FormatJoined(words: seq<string>)
    requires PlainTokens(words)
    ensures words != [] ==> Format(words) == Join(Pieces(words), " ")
  {
    if words != [] {
      PiecesPlain(words);
      JoinPlain(Pieces(words));
      DropSpaceBeforeIdentity(Join(Pieces(words), " "));
    }
  }
}
