/**
 * `_clean_text` of the text processor: a chain of regular-expression rewrites that
 * normalises the text of a book. Each rewrite is written as a scanner over the
 * characters that makes the choices Python's `re` engine makes (leftmost match,
 * greedy repetition, scanning resumes after a match).
 */
module Cleaning {
  import opened PyStr

  /** The punctuation the character filter keeps: `. ! ? ; : , ' " ( ) -`. */
  predicate IsKeptPunct(c: char)
  {
    c == '.' || c == '!' || c == '?' || c == ';' || c == ':' || c == ',' ||
    c == '\'' || c == '"' || c == '(' || c == ')' || c == '-'
  }

  /** The marks no whitespace may precede after cleaning: `. ! ? ; : ,`. */
  predicate IsTightMark(c: char) { c == '.' || c == '!' || c == '?' || c == ';' || c == ':' || c == ',' }

  /** A character cleaned text may hold: a word character, a plain space or kept punctuation. */
  predicate IsCleanChar(c: char) { IsWordChar(c) || c == ' ' || IsKeptPunct(c) }

  predicate AllClean(s: string) { forall i :: 0 <= i < |s| ==> IsCleanChar(s[i]) }

  /** No two neighbouring characters of `s` form a `bad` pair. */
  predicate NoPair(s: string, bad: (char, char) -> bool)
  {
    forall i :: 0 <= i < |s| - 1 ==> !bad(s[i], s[i + 1])
  }

  /** Whitespace directly before one of `. ! ? ; : ,`. */
  predicate SpaceMark(a: char, b: char) { IsSpace(a) && IsTightMark(b) }

  /** One of `. ! ?` directly followed by a capital letter. */
  predicate MarkCapital(a: char, b: char) { IsTerminalChar(a) && IsUpperChar(b) }

  /** `c * n`. */
  function Repeat(c: char, n: nat): (r: string)
    ensures |r| == n && forall i :: 0 <= i < n ==> r[i] == c
  {
    seq(n, i => c)
  }

  /** `re.sub(r'[^\w\s.!?;:,\'"()-]', ' ', s)`: a character of any other kind becomes a space. */
  function ReplaceOdd(s: string): (r: string)
    ensures |r| == |s|
    ensures forall i :: 0 <= i < |s| ==> r[i] == s[i] || r[i] == ' '
    ensures forall i :: 0 <= i < |s| ==> IsWordChar(r[i]) || IsSpace(r[i]) || IsKeptPunct(r[i])
  {
    seq(|s|, i requires 0 <= i < |s| => if IsWordChar(s[i]) || IsSpace(s[i]) || IsKeptPunct(s[i]) then s[i] else ' ')
  }

  /** `re.sub(r'\s+([.!?;:,])', r'\1', s)`: a run of whitespace right before one of those marks is dropped. */
  function Tighten(s: string): (r: string)
    ensures s != [] && !IsSpace(s[0]) ==> r != [] && r[0] == s[0]
    decreases |s|
  {
    if s == [] then []
    else if IsSpace(s[0]) then
      var k := LeadingSpaces(s);
      if k < |s| && IsTightMark(s[k]) then [s[k]] + Tighten(s[k + 1..])
      else s[..k] + Tighten(s[k..])
    else [s[0]] + Tighten(s[1..])
  }

  /**
   * How much of `s` one step of `re.sub(r'([.!?])\s*([A-Z])', r'\1 \2', s)` consumes: the
   * mark, the whitespace and the capital when the pattern matches at the front, else one character.
   */
  function MarkGap(s: string): (j: nat)
    requires s != []
    ensures 1 <= j <= |s|
    ensures j > 1 ==> IsTerminalChar(s[0]) && IsUpperChar(s[j - 1])
    ensures j == 1 && |s| > 1 ==> !MarkCapital(s[0], s[1])
  {
    var k := LeadingSpaces(s[1..]);
    if IsTerminalChar(s[0]) && 1 + k < |s| && IsUpperChar(s[1 + k]) then 2 + k else 1
  }

  /** What one step writes: the mark, one space and the capital, or the character unchanged. */
  function MarkHead(s: string): (h: string)
    requires s != []
  {
    var j := MarkGap(s);
    if j == 1 then [s[0]] else [s[0], ' ', s[j - 1]]
  }

  /** `re.sub(r'([.!?])\s*([A-Z])', r'\1 \2', s)`: one space between a sentence mark and a capital after it. */
  function SpaceSentences(s: string): (r: string)
    ensures s != [] ==> r != [] && r[0] == s[0]
    decreases |s|
  {
    if s == [] then [] else MarkHead(s) + SpaceSentences(s[MarkGap(s)..])
  }

  /** `SpaceSentences` adds nothing but spaces, so it keeps text clean. */
  lemma {:induction false} SpaceSentencesClean(s: string)
    requires AllClean(s)
    ensures AllClean(SpaceSentences(s))
    decreases |s|
  {
    if s != [] {
      var j := MarkGap(s);
      var head := MarkHead(s);
      var rest := SpaceSentences(s[j..]);
      CleanSlice(s, j, |s|);
      SpaceSentencesClean(s[j..]);
      assert AllClean(head) by {
        assert IsCleanChar(s[0]) && IsCleanChar(s[j - 1]);
      }
      CleanConcat(head, rest);
      assert SpaceSentences(s) == head + rest;
    }
  }

  /** Length of the run of `c` that `s` starts with. */
  function RunOf(s: string, c: char): (k: nat)
    ensures k <= |s|
    ensures forall i :: 0 <= i < k ==> s[i] == c
    ensures k < |s| ==> s[k] != c
    decreases |s|
  {
    if s != [] && s[0] == c then 1 + RunOf(s[1..], c) else 0
  }

  /**
   * `re.sub('[c]{min,}', c * keep, s)`: every maximal run of at least `min` copies of
   * `c` becomes `keep` copies; shorter runs stay.
   */
  function Squeeze(s: string, c: char, min: nat, keep: nat): (r: string)
    requires 1 <= keep <= min
    ensures s != [] ==> r != [] && r[0] == s[0]
    decreases |s|
  {
    if s == [] then []
    else if s[0] == c then
      var k := RunOf(s, c);
      (if k >= min then Repeat(c, keep) else s[..k]) + Squeeze(s[k..], c, min, keep)
    else [s[0]] + Squeeze(s[1..], c, min, keep)
  }

  /** Two clean strings join into a clean one. */
  lemma CleanConcat(a: string, b: string)
    requires AllClean(a) && AllClean(b)
    ensures AllClean(a + b)
  {
    forall i | 0 <= i < |a + b| ensures IsCleanChar((a + b)[i]) {
      if i < |a| { assert (a + b)[i] == a[i]; } else { assert (a + b)[i] == b[i - |a|]; }
    }
  }

  /** A slice of clean text is clean. */
  lemma CleanSlice(s: string, a: nat, b: nat)
    requires AllClean(s) && a <= b <= |s|
    ensures AllClean(s[a..b])
  {
    forall i | 0 <= i < b - a ensures IsCleanChar(s[a..b][i]) { assert s[a..b][i] == s[a + i]; }
  }

  /** Dropping whitespace keeps text clean. */
  lemma {:induction false} TightenClean(s: string)
    requires AllClean(s)
    ensures AllClean(Tighten(s))
    decreases |s|
  {
    if s == [] {
    } else if !IsSpace(s[0]) {
      CleanSlice(s, 1, |s|);
      TightenClean(s[1..]);
      assert AllClean([s[0]]) by { assert IsCleanChar(s[0]); }
      CleanConcat([s[0]], Tighten(s[1..]));
    } else {
      var k := LeadingSpaces(s);
      if k < |s| && IsTightMark(s[k]) {
        CleanSlice(s, k + 1, |s|);
        TightenClean(s[k + 1..]);
        assert AllClean([s[k]]) by { assert IsCleanChar(s[k]); }
        CleanConcat([s[k]], Tighten(s[k + 1..]));
      } else {
        CleanSlice(s, k, |s|);
        CleanSlice(s, 0, k);
        TightenClean(s[k..]);
        CleanConcat(s[..k], Tighten(s[k..]));
      }
    }
  }

  /** Squeezing a run keeps text clean. */
  lemma {:induction false} SqueezeClean(s: string, c: char, min: nat, keep: nat)
    requires 1 <= keep <= min && AllClean(s)
    ensures AllClean(Squeeze(s, c, min, keep))
    decreases |s|
  {
    if s == [] {
    } else if s[0] != c {
      CleanSlice(s, 1, |s|);
      SqueezeClean(s[1..], c, min, keep);
      assert AllClean([s[0]]) by { assert IsCleanChar(s[0]); }
      CleanConcat([s[0]], Squeeze(s[1..], c, min, keep));
    } else {
      var k := RunOf(s, c);
      var head := if k >= min then Repeat(c, keep) else s[..k];
      CleanSlice(s, k, |s|);
      CleanSlice(s, 0, k);
      assert AllClean(head) by {
        if k >= min { assert IsCleanChar(s[0]); }
      }
      SqueezeClean(s[k..], c, min, keep);
      CleanConcat(head, Squeeze(s[k..], c, min, keep));
    }
  }

  /** A slice of a string without `bad` pairs has none either. */
  lemma NoPairSlice(s: string, bad: (char, char) -> bool, a: nat, b: nat)
    requires NoPair(s, bad) && a <= b <= |s|
    ensures NoPair(s[a..b], bad)
  {
    forall i | 0 <= i < b - a - 1 ensures !bad(s[a..b][i], s[a..b][i + 1]) {
      assert s[a..b][i] == s[a + i] && s[a..b][i + 1] == s[a + i + 1];
    }
  }

  /** After `Tighten` no whitespace stands directly before `. ! ? ; : ,`. */
  lemma {:induction false} TightenTight(s: string)
    ensures NoPair(Tighten(s), SpaceMark)
    decreases |s|
  {
    if s == [] {
      return;
    }
    var r := Tighten(s);
    if IsSpace(s[0]) {
      var k := LeadingSpaces(s);
      if k < |s| && IsTightMark(s[k]) {
        TightenTight(s[k + 1..]);
        var rest := Tighten(s[k + 1..]);
        assert r == [s[k]] + rest;
        forall i | 0 <= i < |r| - 1 ensures !SpaceMark(r[i], r[i + 1]) {
          if i > 0 { assert r[i] == rest[i - 1] && r[i + 1] == rest[i]; }
        }
      } else {
        TightenTight(s[k..]);
        var rest := Tighten(s[k..]);
        assert r == s[..k] + rest;
        forall i | 0 <= i < |r| - 1 ensures !SpaceMark(r[i], r[i + 1]) {
          if i + 1 < k {
            assert r[i + 1] == s[i + 1] && IsSpace(s[i + 1]);
          } else if i + 1 == k {
            assert r[i + 1] == rest[0] == s[k];
          } else {
            assert r[i] == rest[i - k] && r[i + 1] == rest[i + 1 - k];
          }
        }
      }
    } else {
      TightenTight(s[1..]);
      var rest := Tighten(s[1..]);
      assert r == [s[0]] + rest;
      forall i | 0 <= i < |r| - 1 ensures !SpaceMark(r[i], r[i + 1]) {
        if i > 0 { assert r[i] == rest[i - 1] && r[i + 1] == rest[i]; }
      }
    }
  }

  /** Two strings without `bad` pairs join into one without, unless the seam is such a pair. */
  lemma GluePairs(prefix: string, rest: string, bad: (char, char) -> bool)
    requires NoPair(prefix, bad) && NoPair(rest, bad)
    requires prefix != [] && rest != [] ==> !bad(prefix[|prefix| - 1], rest[0])
    ensures NoPair(prefix + rest, bad)
  {
    var r := prefix + rest;
    forall i | 0 <= i < |r| - 1 ensures !bad(r[i], r[i + 1]) {
      if i + 1 < |prefix| {
        assert r[i] == prefix[i] && r[i + 1] == prefix[i + 1];
      } else if i + 1 > |prefix| {
        assert r[i] == rest[i - |prefix|] && r[i + 1] == rest[i + 1 - |prefix|];
      }
    }
  }

  /** After `SpaceSentences` no sentence mark is directly followed by a capital. */
  lemma {:induction false} SpaceSentencesSpaced(s: string)
    ensures NoPair(SpaceSentences(s), MarkCapital)
    decreases |s|
  {
    if s != [] {
      var j := MarkGap(s);
      var head := MarkHead(s);
      var rest := SpaceSentences(s[j..]);
      SpaceSentencesSpaced(s[j..]);
      assert SpaceSentences(s) == head + rest;
      assert j < |s| ==> rest[0] == s[j];
      GluePairs(head, rest, MarkCapital);
    }
  }

  /** `SpaceSentences` puts no whitespace before a mark that was not there already. */
  lemma {:induction false} SpaceSentencesTight(s: string)
    requires NoPair(s, SpaceMark)
    ensures NoPair(SpaceSentences(s), SpaceMark)
    decreases |s|
  {
    if s != [] {
      var j := MarkGap(s);
      var head := MarkHead(s);
      var rest := SpaceSentences(s[j..]);
      NoPairSlice(s, SpaceMark, j, |s|);
      SpaceSentencesTight(s[j..]);
      assert SpaceSentences(s) == head + rest;
      assert j < |s| ==> rest[0] == s[j] && !SpaceMark(s[j - 1], s[j]);
      GluePairs(head, rest, SpaceMark);
    }
  }

  /** Squeezing a run creates only `c c` pairs: every other neighbouring pair was already in the input. */
  lemma {:induction false} SqueezeKeepsPairs(s: string, c: char, min: nat, keep: nat, bad: (char, char) -> bool)
    requires 1 <= keep <= min && !bad(c, c) && NoPair(s, bad)
    ensures NoPair(Squeeze(s, c, min, keep), bad)
    decreases |s|
  {
    if s == [] {
      return;
    }
    var r := Squeeze(s, c, min, keep);
    if s[0] == c {
      var k := RunOf(s, c);
      NoPairSlice(s, bad, k, |s|);
      SqueezeKeepsPairs(s[k..], c, min, keep, bad);
      var rest := Squeeze(s[k..], c, min, keep);
      var block := if k >= min then Repeat(c, keep) else s[..k];
      assert r == block + rest;
      assert forall i :: 0 <= i < |block| ==> block[i] == c;
      forall i | 0 <= i < |r| - 1 ensures !bad(r[i], r[i + 1]) {
        if i + 1 < |block| {
          assert r[i] == c && r[i + 1] == c;
        } else if i + 1 == |block| {
          assert r[i] == c == s[k - 1];
          assert r[i + 1] == rest[0] == s[k];
        } else {
          assert r[i] == rest[i - |block|] && r[i + 1] == rest[i + 1 - |block|];
        }
      }
    } else {
      NoPairSlice(s, bad, 1, |s|);
      SqueezeKeepsPairs(s[1..], c, min, keep, bad);
      var rest := Squeeze(s[1..], c, min, keep);
      assert r == [s[0]] + rest;
      forall i | 0 <= i < |r| - 1 ensures !bad(r[i], r[i + 1]) {
        if i == 0 {
          assert r[1] == rest[0] == s[1];
        } else {
          assert r[i] == rest[i - 1] && r[i + 1] == rest[i];
        }
      }
    }
  }

  /** Nothing of `q` can start in a prefix made of characters foreign to `q`. */
  lemma AbsentAfterForeign(block: string, rest: string, q: string)
    requires q != [] && !Contains(rest, q)
    requires forall j :: 0 <= j < |block| ==> block[j] !in q
    ensures !Contains(block + rest, q)
  {
    var r := block + rest;
    ContainsIsOccurrence(r, q);
    ContainsIsOccurrence(rest, q);
    forall i | 0 <= i ensures !OccursAt(r, q, i) {
      if i < |block| {
        assert r[i] == block[i];
        NoOccurrenceAt(r, q, i);
      } else {
        OccurrenceInTail(block, rest, q, i);
      }
    }
  }

  /** A run of `c` shorter than `q`, itself a run of `c`, followed by something other than `c`, holds no `q`. */
  lemma RunAfterBlock(block: string, rest: string, q: string, c: char)
    requires forall j :: 0 <= j < |q| ==> q[j] == c
    requires |block| < |q| && (rest == [] || rest[0] != c) && !Contains(rest, q)
    ensures !Contains(block + rest, q)
  {
    var r := block + rest;
    ContainsIsOccurrence(r, q);
    ContainsIsOccurrence(rest, q);
    forall i | 0 <= i ensures !OccursAt(r, q, i) {
      if i < |block| {
        if i + |q| <= |r| {
          assert r[i..i + |q|][|block| - i] == rest[0];
        }
      } else {
        OccurrenceInTail(block, rest, q, i);
      }
    }
  }

  /** After squeezing `c`, no run of `c` is longer than `min - 1` or `keep`, whichever is larger. */
  lemma {:induction false} SqueezeBound(s: string, c: char, min: nat, keep: nat)
    requires 1 <= keep <= min
    ensures !Contains(Squeeze(s, c, min, keep), Repeat(c, if keep < min then min else min + 1))
    decreases |s|
  {
    var r := Squeeze(s, c, min, keep);
    var q := Repeat(c, if keep < min then min else min + 1);
    if s == [] {
      ContainsIsOccurrence(r, q);
    } else if s[0] == c {
      var k := RunOf(s, c);
      SqueezeBound(s[k..], c, min, keep);
      var rest := Squeeze(s[k..], c, min, keep);
      var block := if k >= min then Repeat(c, keep) else s[..k];
      assert r == block + rest;
      RunAfterBlock(block, rest, q, c);
    } else {
      SqueezeBound(s[1..], c, min, keep);
      var rest := Squeeze(s[1..], c, min, keep);
      assert r == [s[0]] + rest;
      AbsentAfterForeign([s[0]], rest, q);
    }
  }

  /** A prefix of the output that holds no `c` is copied from the input unchanged. */
  lemma {:induction false} SqueezeCopies(s: string, c: char, min: nat, keep: nat, m: nat)
    requires 1 <= keep <= min && m <= |Squeeze(s, c, min, keep)|
    requires forall j :: 0 <= j < m ==> Squeeze(s, c, min, keep)[j] != c
    ensures m <= |s| && Squeeze(s, c, min, keep)[..m] == s[..m]
    decreases m
  {
    if m > 0 {
      var r := Squeeze(s, c, min, keep);
      assert s != [] && s[0] == r[0] != c;
      var rest := Squeeze(s[1..], c, min, keep);
      assert r == [s[0]] + rest;
      assert forall j :: 0 <= j < m - 1 ==> rest[j] == r[j + 1];
      SqueezeCopies(s[1..], c, min, keep, m - 1);
      assert r[..m] == [s[0]] + rest[..m - 1];
      assert s[..m] == [s[0]] + s[1..][..m - 1];
    }
  }

  /** Squeezing `c` creates no occurrence of a string that has no `c` in it. */
  lemma {:induction false} SqueezeKeepsAbsent(s: string, c: char, min: nat, keep: nat, q: string)
    requires 1 <= keep <= min && q != [] && c !in q && !Contains(s, q)
    ensures !Contains(Squeeze(s, c, min, keep), q)
    decreases |s|
  {
    var r := Squeeze(s, c, min, keep);
    ContainsIsOccurrence(r, q);
    ContainsIsOccurrence(s, q);
    if s == [] {
      return;
    }
    var k := if s[0] == c then RunOf(s, c) else 1;
    ContainsSuffix(s, k, q);
    SqueezeKeepsAbsent(s[k..], c, min, keep, q);
    var rest := Squeeze(s[k..], c, min, keep);
    ContainsIsOccurrence(rest, q);
    assert r == (if s[0] != c then [s[0]] else if k >= min then Repeat(c, keep) else s[..k]) + rest;
    if s[0] == c {
      var block := if k >= min then Repeat(c, keep) else s[..k];
      AbsentAfterForeign(block, rest, q);
    } else {
      assert r == [s[0]] + rest;
      AfterFirst(s, r, rest, c, min, keep, q);
    }
  }

  /** The case of `SqueezeKeepsAbsent` where `s` starts with a character other than `c`. */
  lemma AfterFirst(s: string, r: string, rest: string, c: char, min: nat, keep: nat, q: string)
    requires 1 <= keep <= min && q != [] && c !in q && !Contains(s, q) && !Contains(rest, q)
    requires s != [] && s[0] != c && r == Squeeze(s, c, min, keep) && r == [s[0]] + rest
    ensures !Contains(r, q)
  {
    ContainsIsOccurrence(r, q);
    ContainsIsOccurrence(s, q);
    ContainsIsOccurrence(rest, q);
    forall i | 0 <= i ensures !OccursAt(r, q, i) {
      if i >= 1 {
        OccurrenceInTail([s[0]], rest, q, i);
      } else if |q| <= |r| {
        if exists j :: 0 <= j < |q| && r[j] == c {
          var j :| 0 <= j < |q| && r[j] == c;
          assert r[..|q|][j] != q[j] by { assert q[j] in q; }
        } else {
          SqueezeCopies(s, c, min, keep, |q|);
        }
      }
    }
  }

  /** A substring inherits cleanliness and the absence of pairs. */
  lemma SubstringShape(s: string, r: string, i: nat)
    requires OccursAt(s, r, i)
    ensures AllClean(s) ==> AllClean(r)
    ensures NoPair(s, SpaceMark) ==> NoPair(r, SpaceMark)
    ensures NoPair(s, MarkCapital) ==> NoPair(r, MarkCapital)
  {
    assert r == s[i..i + |r|];
    if NoPair(s, SpaceMark) { NoPairSlice(s, SpaceMark, i, i + |r|); }
    if NoPair(s, MarkCapital) { NoPairSlice(s, MarkCapital, i, i + |r|); }
  }

  /** The rewrites of `_clean_text` before the final `strip()`. */
  function Normalized(text: string): string
  {
    var a := ReplaceOdd(CollapseSpaces(text));
    var b := SpaceSentences(Tighten(a));
    Squeeze(Squeeze(Squeeze(b, '.', 3, 3), '!', 2, 1), '?', 2, 1)
  }

  /** What the rewrites establish, each kept by the passes after it. */
  lemma NormalizedShape(text: string)
    ensures var n := Normalized(text);
      AllClean(n) && NoPair(n, SpaceMark) && NoPair(n, MarkCapital) &&
      !Contains(n, "!!") && !Contains(n, "??") && !Contains(n, "....")
  {
    var a := ReplaceOdd(CollapseSpaces(text));
    assert AllClean(a);
    var t := Tighten(a);
    TightenTight(a);
    TightenClean(a);
    var b := SpaceSentences(t);
    SpaceSentencesSpaced(t);
    SpaceSentencesTight(t);
    SpaceSentencesClean(t);
    var d := Squeeze(b, '.', 3, 3);
    SqueezeClean(b, '.', 3, 3);
    SqueezeKeepsPairs(b, '.', 3, 3, SpaceMark);
    SqueezeKeepsPairs(b, '.', 3, 3, MarkCapital);
    SqueezeBound(b, '.', 3, 3);
    assert Repeat('.', 4) == "....";
    var e := Squeeze(d, '!', 2, 1);
    SqueezeClean(d, '!', 2, 1);
    SqueezeKeepsPairs(d, '!', 2, 1, SpaceMark);
    SqueezeKeepsPairs(d, '!', 2, 1, MarkCapital);
    SqueezeKeepsAbsent(d, '!', 2, 1, "....");
    SqueezeBound(d, '!', 2, 1);
    assert Repeat('!', 2) == "!!";
    var f := Squeeze(e, '?', 2, 1);
    SqueezeClean(e, '?', 2, 1);
    SqueezeKeepsPairs(e, '?', 2, 1, SpaceMark);
    SqueezeKeepsPairs(e, '?', 2, 1, MarkCapital);
    SqueezeKeepsAbsent(e, '?', 2, 1, "....");
    SqueezeKeepsAbsent(e, '?', 2, 1, "!!");
    SqueezeBound(e, '?', 2, 1);
    assert Repeat('?', 2) == "??";
  }

  /** `_clean_text`: the normalised text, stripped. */
  function CleanText(text: string): string
  {
    Strip(Normalized(text))
  }

  /**
   * What `_clean_text` guarantees: the result holds only word characters, plain spaces and
   * kept punctuation, has no whitespace at either end or before `. ! ? ; : ,`, no sentence
   * mark directly followed by a capital, no `!!`, no `??` and no run of four periods.
   */
  lemma CleanTextShape(text: string)
    ensures var r := CleanText(text);
      AllClean(r) &&
      (r == [] || (!IsSpace(r[0]) && !IsSpace(r[|r| - 1]))) &&
      NoPair(r, SpaceMark) && NoPair(r, MarkCapital) &&
      !Contains(r, "!!") && !Contains(r, "??") && !Contains(r, "....")
  {
    var n := Normalized(text);
    NormalizedShape(text);
    var r := Strip(n);
    var i :| OccursAt(n, r, i);
    SubstringShape(n, r, i);
    SubstringAbsent(n, r, i, "!!");
    SubstringAbsent(n, r, i, "??");
    SubstringAbsent(n, r, i, "....");
  }
}
