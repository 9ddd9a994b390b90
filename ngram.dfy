/**
 * The n-gram tables of the language model as values: next-word distributions,
 * the counting that training performs, the vocabulary threshold and the word
 * numbering, and normalisation of counts to probabilities. Weights are exact
 * reals, so `count / total` is the exact ratio.
 */
module NGram {
  import opened PyStr
  import opened Ordering

  /** One `next_word: weight` item of an inner dictionary. */
  datatype Entry = Entry(word: string, weight: real)

  /** An inner dictionary `{next_word: weight}`, in insertion order. */
  type Dist = seq<Entry>

  /** `n_grams`: a context of `n - 1` tokens to the distribution of the token after it. */
  type Table = map<seq<string>, Dist>

  function Words(d: Dist): (r: seq<string>)
    ensures |r| == |d|
    ensures forall i :: 0 <= i < |d| ==> r[i] == d[i].word
  {
    seq(|d|, i requires 0 <= i < |d| => d[i].word)
  }

  predicate UniqueWords(d: Dist)
  {
    forall i, j :: 0 <= i < j < |d| ==> d[i].word != d[j].word
  }

  predicate PositiveWeights(d: Dist)
  {
    forall i :: 0 <= i < |d| ==> d[i].weight > 0.0
  }

  /** `d[w]` on a `defaultdict(int)`: the weight stored for `w`, or 0. */
  function Weight(d: Dist, w: string): real
    decreases |d|
  {
    if d == [] then 0.0 else if d[0].word == w then d[0].weight else Weight(d[1..], w)
  }

  /** `sum(d.values())`. */
  function Sum(d: Dist): real
    decreases |d|
  {
    if d == [] then 0.0 else d[0].weight + Sum(d[1..])
  }

  lemma {:induction false} PositiveSum(d: Dist)
    requires PositiveWeights(d)
    ensures d != [] ==> Sum(d) > 0.0
    decreases |d|
  {
    if d != [] { PositiveSum(d[1..]); }
  }

  /** `d[w] += 1`: an existing word keeps its place, a new one is appended with weight 1. */
  function Increment(d: Dist, w: string): (r: Dist)
    decreases |d|
  {
    if d == [] then [Entry(w, 1.0)]
    else if d[0].word == w then [Entry(w, d[0].weight + 1.0)] + d[1..]
    else [d[0]] + Increment(d[1..], w)
  }

  /** An increment adds 1 to the weight of `w` and leaves every other weight alone. */
  lemma {:induction false} IncrementWeight(d: Dist, w: string, v: string)
    ensures Weight(Increment(d, w), v) == Weight(d, v) + (if v == w then 1.0 else 0.0)
    decreases |d|
  {
    if d != [] && d[0].word != w {
      IncrementWeight(d[1..], w, v);
      assert Increment(d, w)[1..] == Increment(d[1..], w);
    }
  }

  /** An existing word keeps its place; a new one is appended at the end. */
  lemma {:induction false} IncrementWords(d: Dist, w: string)
    ensures w in Words(d) ==> Words(Increment(d, w)) == Words(d)
    ensures w !in Words(d) ==> Words(Increment(d, w)) == Words(d) + [w]
    decreases |d|
  {
    if d != [] {
      WordsCons(d[0], d[1..]);
      assert d == [d[0]] + d[1..];
      if d[0].word == w {
        WordsCons(Entry(w, d[0].weight + 1.0), d[1..]);
      } else {
        IncrementWords(d[1..], w);
        WordsCons(d[0], Increment(d[1..], w));
      }
    }
  }

  lemma WordsCons(e: Entry, rest: Dist)
    ensures Words([e] + rest) == [e.word] + Words(rest)
  {
  }

  /** An increment adds exactly one unit of weight. */
  lemma {:induction false} IncrementSum(d: Dist, w: string)
    ensures Sum(Increment(d, w)) == Sum(d) + 1.0
    decreases |d|
  {
    if d != [] && d[0].word != w {
      IncrementSum(d[1..], w);
      assert Increment(d, w)[1..] == Increment(d[1..], w);
    }
  }

  lemma {:induction false} IncrementPositive(d: Dist, w: string)
    requires PositiveWeights(d)
    ensures PositiveWeights(Increment(d, w))
    decreases |d|
  {
    if d != [] && d[0].word != w {
      IncrementPositive(d[1..], w);
      assert Increment(d, w)[1..] == Increment(d[1..], w);
    }
  }

  /** An increment never makes a word appear twice. */
  lemma {:induction false} IncrementUnique(d: Dist, w: string)
    requires UniqueWords(d)
    ensures UniqueWords(Increment(d, w))
    decreases |d|
  {
    if d != [] {
      var tail := d[1..];
      assert d[0].word !in Words(tail) by {
        forall j | 0 <= j < |tail| ensures Words(tail)[j] != d[0].word {
          assert tail[j] == d[j + 1];
        }
      }
      if d[0].word == w {
        ConsUnique(Entry(w, d[0].weight + 1.0), tail);
      } else {
        IncrementUnique(tail, w);
        IncrementWords(tail, w);
        var rest := Increment(tail, w);
        assert d[0].word !in Words(rest);
        ConsUnique(d[0], rest);
      }
    }
  }

  /** Putting a new word in front of distinct words keeps them distinct. */
  lemma ConsUnique(e: Entry, rest: Dist)
    requires UniqueWords(rest) && e.word !in Words(rest)
    ensures UniqueWords([e] + rest)
  {
    forall j | 0 <= j < |rest| ensures rest[j].word != e.word {
      assert Words(rest)[j] == rest[j].word;
    }
  }

  /** Every weight divided by `t`. */
  function Scale(d: Dist, t: real): (r: Dist)
    requires t != 0.0
    ensures |r| == |d|
    ensures forall i :: 0 <= i < |d| ==> r[i] == Entry(d[i].word, d[i].weight / t)
    decreases |d|
  {
    if d == [] then [] else [Entry(d[0].word, d[0].weight / t)] + Scale(d[1..], t)
  }

  lemma DivAdd(a: real, b: real, t: real)
    requires t != 0.0
    ensures a / t + b / t == (a + b) / t
  {
  }

  /** Scaling divides the total by `t`. */
  lemma {:induction false} ScaleSum(d: Dist, t: real)
    requires t != 0.0
    ensures Sum(Scale(d, t)) == Sum(d) / t
    decreases |d|
  {
    if d != [] {
      ScaleSum(d[1..], t);
      assert Scale(d, t)[1..] == Scale(d[1..], t);
      DivAdd(d[0].weight, Sum(d[1..]), t);
    }
  }

  /** Scaling divides each word's weight by `t`. */
  lemma {:induction false} ScaleWeight(d: Dist, t: real, w: string)
    requires t != 0.0
    ensures Weight(Scale(d, t), w) == Weight(d, w) / t
    decreases |d|
  {
    if d != [] {
      ScaleWeight(d[1..], t, w);
      assert Scale(d, t)[1..] == Scale(d[1..], t);
    }
  }

  /** `for word in d: d[word] /= total` with `total = sum(d.values())`; an empty dictionary is left alone. */
  function Normalize(d: Dist): (r: Dist)
    requires d == [] || Sum(d) != 0.0
    ensures Words(r) == Words(d)
  {
    if d == [] then [] else Scale(d, Sum(d))
  }

  /** After normalisation a non-empty distribution sums to 1 and each weight is its count over the total (maximum likelihood). */
  lemma NormalizeIsProbability(d: Dist, w: string)
    requires d != [] && Sum(d) != 0.0
    ensures Sum(Normalize(d)) == 1.0
    ensures Weight(Normalize(d), w) == Weight(d, w) / Sum(d)
  {
    ScaleSum(d, Sum(d));
    ScaleWeight(d, Sum(d), w);
    assert Normalize(d) == Scale(d, Sum(d));
    assert Sum(d) / Sum(d) == 1.0;
  }

  lemma NormalizePositive(d: Dist)
    requires PositiveWeights(d)
    ensures d == [] || Sum(d) != 0.0
    ensures PositiveWeights(Normalize(d))
  {
    PositiveSum(d);
    if d != [] {
      var r := Normalize(d);
      assert r == Scale(d, Sum(d));
      forall i | 0 <= i < |r| ensures r[i].weight > 0.0 {
        assert r[i].weight == d[i].weight / Sum(d);
        QuotientPositive(d[i].weight, Sum(d));
      }
    }
  }

  lemma QuotientPositive(a: real, b: real)
    requires a > 0.0 && b > 0.0
    ensures a / b > 0.0
  {
  }

  /** `n_grams.get(k, {})`. */
  function Get(t: Table, k: seq<string>): Dist
  {
    if k in t then t[k] else []
  }

  /** `n_grams[k][w] += 1` on the nested `defaultdict`. */
  function Bump(t: Table, k: seq<string>, w: string): (r: Table)
    ensures r.Keys == t.Keys + {k}
    ensures forall k' :: k' != k ==> Get(r, k') == Get(t, k')
    ensures Get(r, k) == Increment(Get(t, k), w)
  {
    t[k := Increment(Get(t, k), w)]
  }

  /** The context of the window starting at `i` of a sentence: its `n - 1` tokens. */
  function WindowKey(f: seq<string>, n: int, i: nat): seq<string>
    requires n >= 1 && i + n <= |f|
  {
    f[i..i + n - 1]
  }

  /** The first `m` iterations of `for i in range(len(f) - n + 1)`: one increment per window. */
  function CountWindows(t: Table, f: seq<string>, n: int, m: nat): Table
    requires n >= 1 && m + n - 1 <= |f|
    decreases m
  {
    if m == 0 then t else Bump(CountWindows(t, f, n, m - 1), WindowKey(f, n, m - 1), f[m - 1 + n - 1])
  }

  /** How many of the first `m` windows have context `k`. */
  function ContextCount(f: seq<string>, n: int, k: seq<string>, m: nat): nat
    requires n >= 1 && m + n - 1 <= |f|
    decreases m
  {
    if m == 0 then 0 else ContextCount(f, n, k, m - 1) + (if WindowKey(f, n, m - 1) == k then 1 else 0)
  }

  /** How many of the first `m` windows have context `k` and next token `w`. */
  function PairCount(f: seq<string>, n: int, k: seq<string>, w: string, m: nat): nat
    requires n >= 1 && m + n - 1 <= |f|
    decreases m
  {
    if m == 0 then 0
    else PairCount(f, n, k, w, m - 1) + (if WindowKey(f, n, m - 1) == k && f[m - 1 + n - 1] == w then 1 else 0)
  }

  /** Counting one window adds one unit of weight to its own context, on its next token, and leaves every other context alone. */
  lemma BumpCounts(t: Table, key: seq<string>, next: string, k: seq<string>, w: string)
    ensures Sum(Get(Bump(t, key, next), k)) == Sum(Get(t, k)) + (if key == k then 1.0 else 0.0)
    ensures Weight(Get(Bump(t, key, next), k), w) == Weight(Get(t, k), w) + (if key == k && next == w then 1.0 else 0.0)
  {
    if key == k {
      IncrementSum(Get(t, k), next);
      IncrementWeight(Get(t, k), next, w);
    }
  }

  /** Counting a sentence's windows adds, to each context, one unit per window with that context, on the window's next token. */
  lemma {:induction false} CountWindowsCounts(t: Table, f: seq<string>, n: int, m: nat, k: seq<string>, w: string)
    requires n >= 1 && m + n - 1 <= |f|
    ensures Sum(Get(CountWindows(t, f, n, m), k)) == Sum(Get(t, k)) + ContextCount(f, n, k, m) as real
    ensures Weight(Get(CountWindows(t, f, n, m), k), w) == Weight(Get(t, k), w) + PairCount(f, n, k, w, m) as real
    decreases m
  {
    if m > 0 {
      CountWindowsCounts(t, f, n, m - 1, k, w);
      BumpCounts(CountWindows(t, f, n, m - 1), WindowKey(f, n, m - 1), f[m - 1 + n - 1], k, w);
    }
  }

  /** `[word for word in s if word in V]`. */
  function FilterIn(s: seq<string>, V: set<string>): (r: seq<string>)
    ensures forall i :: 0 <= i < |r| ==> r[i] in V
    ensures |r| <= |s|
    decreases |s|
  {
    if s == [] then [] else (if s[0] in V then [s[0]] else []) + FilterIn(s[1..], V)
  }

  /** One processed sentence's contribution: nothing unless at least `n` of its tokens are in the vocabulary. */
  function CountSentence(t: Table, s: seq<string>, V: set<string>, n: int): Table
    requires n >= 1
  {
    var f := FilterIn(s, V);
    if |f| >= n then CountWindows(t, f, n, |f| - n + 1) else t
  }

  /** The number of windows of processed sentence `s` with context `k` (and next token `w`). */
  function SentenceContextCount(s: seq<string>, V: set<string>, n: int, k: seq<string>): nat
    requires n >= 1
  {
    var f := FilterIn(s, V);
    if |f| >= n then ContextCount(f, n, k, |f| - n + 1) else 0
  }

  function SentencePairCount(s: seq<string>, V: set<string>, n: int, k: seq<string>, w: string): nat
    requires n >= 1
  {
    var f := FilterIn(s, V);
    if |f| >= n then PairCount(f, n, k, w, |f| - n + 1) else 0
  }

  /** The counting loop of `train` over the processed sentences, in order. */
  function CountAll(t: Table, ps: seq<seq<string>>, V: set<string>, n: int): Table
    requires n >= 1
    decreases |ps|
  {
    if ps == [] then t else CountSentence(CountAll(t, ps[..|ps| - 1], V, n), ps[|ps| - 1], V, n)
  }

  function AllContextCount(ps: seq<seq<string>>, V: set<string>, n: int, k: seq<string>): nat
    requires n >= 1
    decreases |ps|
  {
    if ps == [] then 0 else AllContextCount(ps[..|ps| - 1], V, n, k) + SentenceContextCount(ps[|ps| - 1], V, n, k)
  }

  function AllPairCount(ps: seq<seq<string>>, V: set<string>, n: int, k: seq<string>, w: string): nat
    requires n >= 1
    decreases |ps|
  {
    if ps == [] then 0 else AllPairCount(ps[..|ps| - 1], V, n, k, w) + SentencePairCount(ps[|ps| - 1], V, n, k, w)
  }

  /** Over all sentences, a context's total weight grows by the number of its windows, and each next token's weight by that pair's count. */
  lemma {:induction false} CountAllCounts(t: Table, ps: seq<seq<string>>, V: set<string>, n: int, k: seq<string>, w: string)
    requires n >= 1
    ensures Sum(Get(CountAll(t, ps, V, n), k)) == Sum(Get(t, k)) + AllContextCount(ps, V, n, k) as real
    ensures Weight(Get(CountAll(t, ps, V, n), k), w) == Weight(Get(t, k), w) + AllPairCount(ps, V, n, k, w) as real
    decreases |ps|
  {
    if ps != [] {
      var before := CountAll(t, ps[..|ps| - 1], V, n);
      CountAllCounts(t, ps[..|ps| - 1], V, n, k, w);
      var f := FilterIn(ps[|ps| - 1], V);
      if |f| >= n {
        CountWindowsCounts(before, f, n, |f| - n + 1, k, w);
      }
    }
  }

  /** Every stored weight is positive, so every non-empty distribution can be normalised. */
  predicate AllPositive(t: Table)
  {
    forall k :: k in t ==> PositiveWeights(t[k])
  }

  lemma {:induction false} CountWindowsPositive(t: Table, f: seq<string>, n: int, m: nat)
    requires n >= 1 && m + n - 1 <= |f|
    requires AllPositive(t)
    ensures AllPositive(CountWindows(t, f, n, m))
    decreases m
  {
    if m > 0 {
      CountWindowsPositive(t, f, n, m - 1);
      var before := CountWindows(t, f, n, m - 1);
      var key := WindowKey(f, n, m - 1);
      IncrementPositive(Get(before, key), f[m - 1 + n - 1]);
      var r := Bump(before, key, f[m - 1 + n - 1]);
      forall k | k in r ensures PositiveWeights(r[k]) {
        if k != key { assert r[k] == before[k]; }
      }
    }
  }

  lemma {:induction false} CountAllPositive(t: Table, ps: seq<seq<string>>, V: set<string>, n: int)
    requires n >= 1
    requires AllPositive(t)
    ensures AllPositive(CountAll(t, ps, V, n))
    decreases |ps|
  {
    if ps != [] {
      CountAllPositive(t, ps[..|ps| - 1], V, n);
      var f := FilterIn(ps[|ps| - 1], V);
      if |f| >= n { CountWindowsPositive(CountAll(t, ps[..|ps| - 1], V, n), f, n, |f| - n + 1); }
    }
  }

  /** No non-empty inner dictionary sums to 0: `train`'s normalisation divides by no zero total. */
  predicate Normalizable(t: Table)
  {
    forall k :: k in t ==> t[k] == [] || Sum(t[k]) != 0.0
  }

  /** Positive weights never sum to 0. */
  lemma PositiveNormalizable(t: Table)
    requires AllPositive(t)
    ensures Normalizable(t)
  {
    forall k | k in t ensures t[k] == [] || Sum(t[k]) != 0.0 {
      PositiveSum(t[k]);
    }
  }

  /** The normalisation loop of `train`: every inner dictionary divided by its own total. */
  function NormalizeAll(t: Table): (r: Table)
    requires Normalizable(t)
    ensures r.Keys == t.Keys
    ensures forall k :: k in t ==> Words(r[k]) == Words(t[k])
  {
    map k | k in t :: Normalize(t[k])
  }

  /** Normalising positive weights keeps them positive. */
  lemma NormalizeAllPositive(t: Table)
    requires AllPositive(t)
    ensures Normalizable(t) && AllPositive(NormalizeAll(t))
  {
    PositiveNormalizable(t);
    forall k | k in t ensures PositiveWeights(NormalizeAll(t)[k]) {
      NormalizePositive(t[k]);
    }
  }

  /**
   * What the normalisation loop leaves when it stops on a zero total: every inner dictionary
   * either as counted or, when its total is not 0, normalised.
   */
  predicate PartlyNormalized(counted: Table, t: Table)
  {
    t.Keys == counted.Keys &&
    forall k :: k in counted ==>
      t[k] == counted[k] || ((counted[k] == [] || Sum(counted[k]) != 0.0) && t[k] == Normalize(counted[k]))
  }

  /** A table that holds each distribution of `t` normalised is `NormalizeAll(t)`. */
  lemma NormalizeAllAt(t: Table, r: Table)
    requires Normalizable(t)
    requires r.Keys == t.Keys
    requires forall k :: k in t ==> r[k] == Normalize(t[k])
    ensures r == NormalizeAll(t)
  {
  }

  /** After training, each non-empty inner distribution sums to 1. */
  lemma NormalizeAllSumsToOne(t: Table, k: seq<string>)
    requires Normalizable(t) && k in t && t[k] != []
    ensures Sum(NormalizeAll(t)[k]) == 1.0
  {
    NormalizeIsProbability(t[k], "");
  }

  /**
   * Training a fresh model estimates `P(w | k)` as the number of windows with context `k`
   * and next token `w` over the number of windows with context `k`.
   */
  lemma FreshTrainProbability(ps: seq<seq<string>>, V: set<string>, n: int, k: seq<string>, w: string)
    requires n >= 1
    requires k in CountAll(map[], ps, V, n)
    ensures AllPositive(CountAll(map[], ps, V, n)) && Normalizable(CountAll(map[], ps, V, n))
    ensures AllContextCount(ps, V, n, k) > 0
    ensures Weight(NormalizeAll(CountAll(map[], ps, V, n))[k], w)
      == AllPairCount(ps, V, n, k, w) as real / AllContextCount(ps, V, n, k) as real
  {
    var t := CountAll(map[], ps, V, n);
    CountAllPositive(map[], ps, V, n);
    PositiveNormalizable(t);
    CountAllCounts(map[], ps, V, n, k, w);
    CountAllKeys(map[], ps, V, n, k);
    PositiveSum(t[k]);
    NormalizeIsProbability(t[k], w);
  }

  /** Every context the counting creates holds at least one next token. */
  lemma {:induction false} CountAllKeys(t: Table, ps: seq<seq<string>>, V: set<string>, n: int, k: seq<string>)
    requires n >= 1
    ensures k in CountAll(t, ps, V, n) && k !in t ==> CountAll(t, ps, V, n)[k] != []
    decreases |ps|
  {
    if ps != [] {
      CountAllKeys(t, ps[..|ps| - 1], V, n, k);
      var f := FilterIn(ps[|ps| - 1], V);
      if |f| >= n { CountWindowsKeys(CountAll(t, ps[..|ps| - 1], V, n), f, n, |f| - n + 1, k); }
    }
  }

  lemma {:induction false} CountWindowsKeys(t: Table, f: seq<string>, n: int, m: nat, k: seq<string>)
    requires n >= 1 && m + n - 1 <= |f|
    ensures k in CountWindows(t, f, n, m) && (k !in t || t[k] != []) ==> CountWindows(t, f, n, m)[k] != []
    decreases m
  {
    if m > 0 { CountWindowsKeys(t, f, n, m - 1, k); }
  }

  /** The shape `train` gives `n_grams`: contexts of `n - 1` vocabulary tokens whose next tokens are vocabulary tokens. */
  predicate Shaped(t: Table, n: int, V: set<string>)
  {
    forall k :: k in t ==>
      |k| == n - 1 && (forall i :: 0 <= i < |k| ==> k[i] in V) && (forall w :: w in Words(t[k]) ==> w in V)
  }

  /** Counting one window keeps the table shaped when the window's tokens are vocabulary tokens. */
  lemma BumpShaped(t: Table, n: int, V: set<string>, k: seq<string>, w: string)
    requires Shaped(t, n, V)
    requires |k| == n - 1 && (forall i :: 0 <= i < |k| ==> k[i] in V) && w in V
    ensures Shaped(Bump(t, k, w), n, V)
  {
    var r := Bump(t, k, w);
    forall k' | k' in r
      ensures |k'| == n - 1 && (forall i :: 0 <= i < |k'| ==> k'[i] in V) && (forall v :: v in Words(r[k']) ==> v in V)
    {
      if k' != k {
        assert r[k'] == t[k'];
      } else {
        assert r[k] == Increment(Get(t, k), w);
        IncrementWords(Get(t, k), w);
        forall v | v in Words(r[k]) ensures v in V {
          if v != w {
            assert v in Words(Get(t, k));
          }
        }
      }
    }
  }

  lemma {:induction false} CountWindowsShaped(t: Table, f: seq<string>, n: int, m: nat, V: set<string>)
    requires n >= 1 && m + n - 1 <= |f|
    requires forall i :: 0 <= i < |f| ==> f[i] in V
    requires Shaped(t, n, V)
    ensures Shaped(CountWindows(t, f, n, m), n, V)
    decreases m
  {
    if m > 0 {
      CountWindowsShaped(t, f, n, m - 1, V);
      var k := WindowKey(f, n, m - 1);
      assert |k| == n - 1 && forall i :: 0 <= i < |k| ==> k[i] in V by {
        assert forall i :: 0 <= i < |k| ==> k[i] == f[m - 1 + i];
      }
      BumpShaped(CountWindows(t, f, n, m - 1), n, V, k, f[m - 1 + n - 1]);
    }
  }

  /** Counting over a vocabulary that contains the old one keeps the table shaped. */
  lemma {:induction false} CountAllShaped(t: Table, ps: seq<seq<string>>, V: set<string>, n: int)
    requires n >= 1
    requires Shaped(t, n, V)
    ensures Shaped(CountAll(t, ps, V, n), n, V)
    decreases |ps|
  {
    if ps != [] {
      CountAllShaped(t, ps[..|ps| - 1], V, n);
      var f := FilterIn(ps[|ps| - 1], V);
      if |f| >= n { CountWindowsShaped(CountAll(t, ps[..|ps| - 1], V, n), f, n, |f| - n + 1, V); }
    }
  }

  lemma ShapedGrows(t: Table, n: int, V: set<string>, V2: set<string>)
    requires Shaped(t, n, V) && V <= V2
    ensures Shaped(t, n, V2)
  {
  }

  /** `Counter[w] += 1` for each token, in order. */
  function CountWords(c: map<string, int>, ws: seq<string>): map<string, int>
    decreases |ws|
  {
    if ws == [] then c
    else
      var r := CountWords(c, ws[..|ws| - 1]);
      var w := ws[|ws| - 1];
      r[w := (if w in r then r[w] else 0) + 1]
  }

  /** The counted words are the old ones and the tokens. */
  lemma {:induction false} CountWordsKeys(c: map<string, int>, ws: seq<string>)
    ensures CountWords(c, ws).Keys == c.Keys + set i | 0 <= i < |ws| :: ws[i]
    decreases |ws|
  {
    if ws != [] {
      var init := ws[..|ws| - 1];
      CountWordsKeys(c, init);
      assert (set i | 0 <= i < |ws| :: ws[i]) == (set i | 0 <= i < |init| :: init[i]) + {ws[|ws| - 1]};
    }
  }

  /** How often `w` occurs in `ws`. */
  function Occurrences(ws: seq<string>, w: string): nat
    decreases |ws|
  {
    if ws == [] then 0 else Occurrences(ws[..|ws| - 1], w) + (if ws[|ws| - 1] == w then 1 else 0)
  }

  /** Counting a sentence adds to each word exactly its number of occurrences. */
  lemma {:induction false} CountWordsCounts(c: map<string, int>, ws: seq<string>, w: string)
    ensures (if w in CountWords(c, ws) then CountWords(c, ws)[w] else 0) == (if w in c then c[w] else 0) + Occurrences(ws, w)
    decreases |ws|
  {
    if ws != [] { CountWordsCounts(c, ws[..|ws| - 1], w); }
  }

  /** The word-count loop of `train` over the processed sentences. */
  function CountSentences(c: map<string, int>, ps: seq<seq<string>>): map<string, int>
    decreases |ps|
  {
    if ps == [] then c else CountWords(CountSentences(c, ps[..|ps| - 1]), ps[|ps| - 1])
  }

  /** Counts never fall: every word keeps at least its old count. */
  lemma {:induction false} CountSentencesGrow(c: map<string, int>, ps: seq<seq<string>>, w: string)
    requires w in c
    ensures w in CountSentences(c, ps) && CountSentences(c, ps)[w] >= c[w]
    decreases |ps|
  {
    if ps != [] {
      var before := CountSentences(c, ps[..|ps| - 1]);
      CountSentencesGrow(c, ps[..|ps| - 1], w);
      CountWordsCounts(before, ps[|ps| - 1], w);
      CountWordsKeys(before, ps[|ps| - 1]);
    }
  }

  /** `{word for word, count in word_counts.items() if count >= min_word_count}`. */
  function Threshold(c: map<string, int>, minCount: int): (r: set<string>)
    ensures forall w :: w in r <==> w in c && c[w] >= minCount
  {
    set w | w in c && c[w] >= minCount
  }

  /** A second training run only adds to the vocabulary. */
  lemma ThresholdGrows(c: map<string, int>, ps: seq<seq<string>>, minCount: int)
    ensures Threshold(c, minCount) <= Threshold(CountSentences(c, ps), minCount)
  {
    forall w | w in Threshold(c, minCount) ensures w in Threshold(CountSentences(c, ps), minCount) {
      CountSentencesGrow(c, ps, w);
    }
  }

  /** `{word: i for i, word in enumerate(ss)}` for a list without repeats. */
  function IdsOf(ss: seq<string>): map<string, int>
    requires StrictlySorted(ss)
  {
    StrictlySortedDistinct(ss);
    map i | 0 <= i < |ss| :: ss[i] := i
  }

  /** `{i: word for word, i in word_to_id.items()}`. */
  function NamesOf(ss: seq<string>): map<int, string>
  {
    map i | 0 <= i < |ss| :: ss[i]
  }

  /** For a sorted list without repeats, `IdsOf` and `NamesOf` are inverse numberings of its members. */
  lemma IdsNamesInverse(ss: seq<string>)
    requires StrictlySorted(ss)
    ensures var ids := IdsOf(ss); var names := NamesOf(ss);
      && (forall w :: w in ids <==> w in ss)
      && (forall i :: i in names <==> 0 <= i < |ss|)
      && (forall w :: w in ids ==> 0 <= ids[w] < |ss| && names[ids[w]] == w)
      && (forall i :: 0 <= i < |ss| ==> ids[names[i]] == i)
  {
    StrictlySortedDistinct(ss);
    var ids := IdsOf(ss);
    forall w | w in ids ensures 0 <= ids[w] < |ss| && ss[ids[w]] == w {
      var i :| 0 <= i < |ss| && ss[i] == w;
      assert ids[w] == i;
    }
    forall w | w in ss ensures w in ids {
      var i :| 0 <= i < |ss| && ss[i] == w;
      assert ss[i] in ids;
    }
  }

  /** `ids` maps exactly `V` onto `0 .. |V| - 1`, and `names` maps each number back to its word. */
  ghost predicate IsNumbering(V: set<string>, ids: map<string, int>, names: map<int, string>)
  {
    && ids.Keys == V
    && (forall i :: i in names <==> 0 <= i < |V|)
    && (forall w :: w in V ==> 0 <= ids[w] < |V| && names[ids[w]] == w)
    && (forall i :: 0 <= i < |V| ==> names[i] in V && ids[names[i]] == i)
  }

  /** `word_to_id` and `id_to_word` built from `sorted(vocabulary)` are inverse numberings of the vocabulary. */
  lemma NumberingInverse(V: set<string>)
    ensures IsNumbering(V, IdsOf(SortedSet(V)), NamesOf(SortedSet(V)))
  {
    var ss := SortedSet(V);
    NumberingOfSorted(V, ss);
  }

  lemma NumberingOfSorted(V: set<string>, ss: seq<string>)
    requires StrictlySorted(ss) && |ss| == |V| && forall x :: x in V <==> x in ss
    ensures IsNumbering(V, IdsOf(ss), NamesOf(ss))
  {
    IdsNamesInverse(ss);
    var names := NamesOf(ss);
    forall i | 0 <= i < |V| ensures names[i] in V {
      assert names[i] == ss[i];
    }
  }

  /** The numbering follows string order: `a < b` exactly when `a`'s id is smaller. */
  lemma NumberingOrdered(V: set<string>, a: string, b: string)
    requires a in V && b in V
    ensures StrLt(a, b) <==> IdsOf(SortedSet(V))[a] < IdsOf(SortedSet(V))[b]
  {
    var ss := SortedSet(V);
    StrictlySortedDistinct(ss);
    NumberingInverse(V);
    var ids := IdsOf(ss);
    var i, j := ids[a], ids[b];
    assert ss[i] == NamesOf(ss)[i] == a;
    assert ss[j] == NamesOf(ss)[j] == b;
    if i == j { StrLtIrreflexive(a); }
    if j < i { StrLtAsymmetric(a, b); }
  }
}
