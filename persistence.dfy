/**
 * The structured content of a saved model file. JSON objects are lists of
 * `(key, value)` pairs in file order; `id_to_word` has its integer keys written as
 * decimal strings (JSON object keys are strings), and each n-gram context is written
 * as its list of tokens.
 */
module Persistence {
  import opened Wrappers
  import opened PyStr
  import opened Numerals
  import opened NGram

  /** An n-gram size of at least 1. */
  type Positive = n: int | n >= 1 witness 1

  /** Every field `save_model` writes, as the model holds it. */
  datatype Snapshot = Snapshot(
    nGramSize: Positive,
    minWordCount: int,
    wordToId: map<string, int>,
    idToWord: map<int, string>,
    vocabulary: set<string>,
    wordCounts: map<string, int>,
    nGrams: Table,
    sentenceStarters: seq<string>,
    isTrained: bool)

  /** The `model_data` dictionary as written to and read from the file. */
  datatype ModelData = ModelData(
    nGramSize: Positive,
    minWordCount: int,
    wordToId: seq<(string, int)>,
    idToWord: seq<(string, string)>,
    vocabulary: seq<string>,
    wordCounts: seq<(string, int)>,
    nGrams: seq<(seq<string>, Dist)>,
    sentenceStarters: seq<string>,
    isTrained: bool)

  /** `dict(pairs)`: a later pair for the same key wins. */
  function FromPairs<K(!new), V>(ps: seq<(K, V)>): (m: map<K, V>)
    ensures forall k :: k in m <==> exists i :: 0 <= i < |ps| && ps[i].0 == k
    decreases |ps|
  {
    if ps == [] then map[]
    else
      var m := FromPairs(ps[..|ps| - 1]);
      assert forall i :: 0 <= i < |ps| - 1 ==> ps[..|ps| - 1][i] == ps[i];
      m[ps[|ps| - 1].0 := ps[|ps| - 1].1]
  }

  /** The set of a list's elements: `set(list)`. */
  function Members<T>(s: seq<T>): set<T>
  {
    set i | 0 <= i < |s| :: s[i]
  }

  lemma MembersAppend<T>(r: seq<T>, x: T)
    ensures Members(r + [x]) == Members(r) + {x}
  {
    var r2 := r + [x];
    forall y | y in Members(r) ensures y in Members(r2) {
      var i :| 0 <= i < |r| && r[i] == y;
      assert r2[i] == y;
    }
    forall y | y in Members(r2) ensures y in Members(r) + {x} {
      var i :| 0 <= i < |r2| && r2[i] == y;
      if i < |r| { assert r[i] == y; }
    }
    assert r2[|r|] == x;
  }

  /**
   * Decimal digits with single underscores between two of them, as `int` accepts: a digit,
   * then the end, more groups, or an underscore and more groups.
   */
  predicate IsDigitGroups(s: string)
    decreases |s|
  {
    s != [] && IsDigit(s[0]) &&
    (|s| == 1 || IsDigitGroups(s[1..]) || (s[1] == '_' && IsDigitGroups(s[2..])))
  }

  /** The digits of `s` in order; of digit groups, the digits without their underscores. */
  function KeptDigits(s: string): (r: string)
    ensures |r| <= |s| && forall i :: 0 <= i < |r| ==> IsDigit(r[i])
    decreases |s|
  {
    if s == [] then [] else KeptDigits(s[..|s| - 1]) + (if IsDigit(s[|s| - 1]) then [s[|s| - 1]] else [])
  }

  /**
   * `int(s)` in base 10: whitespace around an optional sign and digit groups; anything
   * else raises `ValueError`. Digits are the ASCII ones; `int` also takes those of other
   * scripts.
   */
  function ParseInt(s: string): Option<int>
  {
    ParseSigned(Strip(s))
  }

  /** An optional sign and digit groups, with the whitespace already stripped. */
  function ParseSigned(t: string): Option<int>
  {
    if t != [] && (t[0] == '-' || t[0] == '+') then
      if IsDigitGroups(t[1..]) then
        var v: int := ValueOf(KeptDigits(t[1..]));
        Some(if t[0] == '-' then -v else v)
      else None
    else if IsDigitGroups(t) then Some(ValueOf(KeptDigits(t)))
    else None
  }

  /** `int` skips whitespace around the number. */
  lemma ParseIntSpaced()
    ensures ParseInt(" 7\n") == Some(7)
  {
    var s := " 7\n";
    assert s[1] == '7' && s[1..][0] == '7' && s[..2][1] == '7';
    assert LeadingSpaces(s[1..]) == 0;
    assert LeadingSpaces(s) == 1;
    assert TrailingSpaces(s[..2]) == 0;
    assert TrailingSpaces(s) == 1;
    assert Strip(s) == "7";
    SignedDigitString("7");
    assert ValueOf("7") == 7 by { assert "7"[..0] == []; }
  }

  /** `int` takes single underscores between digits. */
  lemma ParseIntUnderscore()
    ensures ParseInt("1_0") == Some(10)
  {
    var s := "1_0";
    StripUnchanged(s);
    assert IsDigitGroups(s) by { assert s[2..] == "0"; }
    assert KeptDigits(s[..1]) == "1" by { assert s[..1][..0] == []; }
    assert KeptDigits(s[..2]) == "1" by { assert s[..2][..1] == s[..1]; }
    assert KeptDigits(s) == "10" by { assert s[..2] == s[..|s| - 1]; }
    assert ValueOf("1") == 1 by { assert "1"[..0] == []; }
    assert ValueOf("10") == 10 by { assert "10"[..1] == "1"; }
  }

  /** `int` refuses a doubled, leading or trailing underscore and a space after the sign. */
  lemma ParseIntRejects()
    ensures ParseInt("1__0") == None && ParseInt("_1") == None && ParseInt("1_") == None && ParseInt("- 7") == None
  {
    var a, b, c, d := "1__0", "_1", "1_", "- 7";
    assert a[0] == '1' && a[1] == '_' && a[2] == '_' && a[3] == '0';
    StripUnchanged(a);
    assert !IsDigitGroups(a) by { assert a[1..][0] == '_' && a[2..][0] == '_'; }
    assert b[0] == '_' && b[1] == '1';
    StripUnchanged(b);
    assert c[0] == '1' && c[1] == '_';
    StripUnchanged(c);
    assert !IsDigitGroups(c) by { assert c[1..][0] == '_' && c[2..] == []; }
    assert d[0] == '-' && d[1] == ' ' && d[2] == '7';
    StripUnchanged(d);
    assert !IsDigitGroups(d[1..]) by { assert d[1..][0] == ' '; }
  }

  lemma {:induction false} KeptAllDigits(s: string)
    requires forall i :: 0 <= i < |s| ==> IsDigit(s[i])
    ensures KeptDigits(s) == s
    decreases |s|
  {
    if s != [] {
      KeptAllDigits(s[..|s| - 1]);
    }
  }

  /** A run of digits is one digit group. */
  lemma {:induction false} DigitsAreGroups(s: string)
    requires s != [] && forall i :: 0 <= i < |s| ==> IsDigit(s[i])
    ensures IsDigitGroups(s)
    decreases |s|
  {
    if |s| > 1 {
      DigitsAreGroups(s[1..]);
    }
  }

  /** A run of digits reads back as its value. */
  lemma ParseDigitString(s: string)
    requires s != [] && forall i :: 0 <= i < |s| ==> IsDigit(s[i])
    ensures ParseInt(s) == ParseSigned(s) == Some(ValueOf(s) as int)
  {
    StripUnchanged(s);
    ParseStripped(s);
    SignedDigitString(s);
  }

  /** Without a sign, a run of digits reads as its value. */
  lemma SignedDigitString(s: string)
    requires s != [] && forall i :: 0 <= i < |s| ==> IsDigit(s[i])
    ensures ParseSigned(s) == Some(ValueOf(s) as int)
  {
    KeptAllDigits(s);
    DigitsAreGroups(s);
    ParseUnsigned(s);
  }

  /** A minus sign and a run of digits read back as the negated value. */
  lemma ParseNegativeString(s: string)
    requires s != [] && forall i :: 0 <= i < |s| ==> IsDigit(s[i])
    ensures ParseInt("-" + s) == ParseSigned("-" + s) == Some(-(ValueOf(s) as int))
  {
    var t := "-" + s;
    assert t[0] == '-' && t[|t| - 1] == s[|s| - 1];
    StripUnchanged(t);
    ParseStripped(t);
    SignedNegativeString(s);
  }

  /** With the minus sign, a run of digits reads as its negated value. */
  lemma SignedNegativeString(s: string)
    requires s != [] && forall i :: 0 <= i < |s| ==> IsDigit(s[i])
    ensures ParseSigned("-" + s) == Some(-(ValueOf(s) as int))
  {
    KeptAllDigits(s);
    DigitsAreGroups(s);
    NegatedDigits("-" + s, s);
  }

  lemma NegatedDigits(t: string, s: string)
    requires t != [] && t[0] == '-' && t[1..] == s && IsDigitGroups(s) && KeptDigits(s) == s
    ensures ParseSigned(t) == Some(-(ValueOf(s) as int))
  {
    ParseMinus(t);
  }

  lemma ParseStripped(t: string)
    requires Strip(t) == t
    ensures ParseInt(t) == ParseSigned(t)
  {
  }

  lemma ParseUnsigned(t: string)
    requires IsDigitGroups(t)
    ensures ParseSigned(t) == Some(ValueOf(KeptDigits(t)) as int)
  {
  }

  lemma ParseMinus(t: string)
    requires t != [] && t[0] == '-' && IsDigitGroups(t[1..])
    ensures ParseSigned(t) == Some(-(ValueOf(KeptDigits(t[1..])) as int))
  {
  }

  /** `int(str(i)) == i`: the key encoding of `id_to_word` round-trips. */
  lemma ParseShowInt(i: int)
    ensures ParseInt(Decimal(i)) == Some(i)
  {
    var n: nat := if i < 0 then -i else i;
    DigitsValue(n);
    if i < 0 {
      ParseNegativeString(Digits(n));
    } else {
      ParseDigitString(Digits(n));
    }
  }

  /** `{int(k): v for k, v in pairs}`: `None` when some key is not an integer. */
  function ParseIdPairs(ps: seq<(string, string)>): Option<seq<(int, string)>>
  {
    if forall i :: 0 <= i < |ps| ==> ParseInt(ps[i].0).Some? then
      Some(seq(|ps|, i requires 0 <= i < |ps| && ParseInt(ps[i].0).Some? => (ParseInt(ps[i].0).value, ps[i].1)))
    else None
  }

  /** `str(k)` for each key of `id_to_word`, as `json.dump` writes it. */
  function ShowIdPairs(ps: seq<(int, string)>): seq<(string, string)>
  {
    seq(|ps|, i requires 0 <= i < |ps| => (Decimal(ps[i].0), ps[i].1))
  }

  lemma ParseShowIdPairs(ps: seq<(int, string)>)
    ensures ParseIdPairs(ShowIdPairs(ps)) == Some(ps)
  {
    var q := ShowIdPairs(ps);
    forall i | 0 <= i < |ps| ensures ParseInt(q[i].0) == Some(ps[i].0) {
      ParseShowInt(ps[i].0);
    }
    assert ParseIdPairs(q).value == ps;
  }

  /**
   * The model `load_model` rebuilds from `d`, or the `ValueError` of an `id_to_word` key
   * that is not an integer.
   */
  function Decode(d: ModelData): (r: Result<Snapshot>)
    ensures r.Ok? <==> forall i :: 0 <= i < |d.idToWord| ==> ParseInt(d.idToWord[i].0).Some?
    ensures r.Ok? ==> forall i :: 0 <= i < |d.idToWord| ==> ParseInt(d.idToWord[i].0).value in r.value.idToWord
  {
    match ParseIdPairs(d.idToWord)
      case None => Err("ValueError: invalid literal for int()")
      case Some(ids) =>
        assert forall i :: 0 <= i < |d.idToWord| ==> ids[i].0 == ParseInt(d.idToWord[i].0).value;
        Ok(Snapshot(d.nGramSize, d.minWordCount, FromPairs(d.wordToId), FromPairs(ids), Members(d.vocabulary),
          FromPairs(d.wordCounts), FromPairs(d.nGrams), d.sentenceStarters, d.isTrained))
  }
}
