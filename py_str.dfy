/**
 * The few Python `str` builtins and `re` character classes the system relies on,
 * restricted to ASCII: letters are `A-Z`/`a-z`, `\w` is letters, digits and `_`,
 * `\s` (and `str.isspace`) is space, tab, newline, carriage return, vertical tab,
 * form feed and the four ASCII separators U+001C to U+001F.
 */
module PyStr {

  predicate IsUpperChar(c: char) { 'A' <= c <= 'Z' }
  predicate IsLowerChar(c: char) { 'a' <= c <= 'z' }
  /** `str.isalpha` on one character; also Python's notion of a cased character. */
  predicate IsLetter(c: char) { IsUpperChar(c) || IsLowerChar(c) }
  predicate IsDigit(c: char) { '0' <= c <= '9' }
  /** The regex class `\w`. */
  predicate IsWordChar(c: char) { IsLetter(c) || IsDigit(c) || c == '_' }
  /** The regex class `\s` and `str.isspace`: the six usual ones and the separators U+001C to U+001F. */
  predicate IsSpace(c: char)
  {
    c == ' ' || c == '\t' || c == '\n' || c == '\r' || c as int == 11 || c as int == 12 || 28 <= c as int <= 31
  }

  function LowerChar(c: char): char { if IsUpperChar(c) then (c as int + 32) as char else c }
  function UpperChar(c: char): char { if IsLowerChar(c) then (c as int - 32) as char else c }

  /** `str.lower`. */
  function Lower(s: string): (r: string)
    ensures |r| == |s|
    ensures forall i :: 0 <= i < |s| ==> r[i] == LowerChar(s[i])
  {
    seq(|s|, i requires 0 <= i < |s| => LowerChar(s[i]))
  }

  /** `str.upper`. */
  function Upper(s: string): (r: string)
    ensures |r| == |s|
    ensures forall i :: 0 <= i < |s| ==> r[i] == UpperChar(s[i])
  {
    seq(|s|, i requires 0 <= i < |s| => UpperChar(s[i]))
  }

  lemma LowerNoUpper(s: string)
    ensures forall i :: 0 <= i < |Lower(s)| ==> !IsUpperChar(Lower(s)[i])
  {
  }

  lemma LowerIdempotent(s: string)
    ensures Lower(Lower(s)) == Lower(s)
  {
  }

  predicate AllLetters(s: string) { forall i :: 0 <= i < |s| ==> IsLetter(s[i]) }
  predicate AllLower(s: string) { forall i :: 0 <= i < |s| ==> IsLowerChar(s[i]) }
  predicate NoSpace(s: string) { forall i :: 0 <= i < |s| ==> !IsSpace(s[i]) }

  /** `str.isalpha`: non-empty and every character a letter. */
  predicate IsAlpha(s: string) { s != [] && AllLetters(s) }

  /** `str.isupper`: at least one cased character and no lower-case one. */
  predicate IsUpperStr(s: string)
  {
    (exists i :: 0 <= i < |s| && IsLetter(s[i])) && forall i :: 0 <= i < |s| ==> !IsLowerChar(s[i])
  }

  /**
   * `str.istitle` scanned from some point on: `prevCased` says whether the previous
   * character was cased, `seenCased` whether any cased character has been seen.
   */
  predicate IsTitleFrom(s: string, prevCased: bool, seenCased: bool)
    decreases |s|
  {
    if s == [] then seenCased
    else if IsUpperChar(s[0]) then !prevCased && IsTitleFrom(s[1..], true, true)
    else if IsLowerChar(s[0]) then prevCased && IsTitleFrom(s[1..], true, true)
    else IsTitleFrom(s[1..], false, seenCased)
  }

  /** `str.istitle`. */
  predicate IsTitle(s: string) { IsTitleFrom(s, false, false) }

  /** A string without upper-case letters is never title-cased: its first cased letter follows an uncased one. */
  lemma {:induction false} NoUpperNotTitle(s: string, seenCased: bool)
    requires forall i :: 0 <= i < |s| ==> !IsUpperChar(s[i])
    ensures !IsTitleFrom(s, false, seenCased) || seenCased
    decreases |s|
  {
    if s != [] && !IsLowerChar(s[0]) {
      NoUpperNotTitle(s[1..], seenCased);
    }
  }

  /** `str.capitalize`: first character upper-cased, the rest lower-cased. */
  function Capitalize(s: string): (r: string)
    ensures |r| == |s|
    ensures s != [] ==> r[0] == UpperChar(s[0]) && r[1..] == Lower(s[1..])
  {
    if s == [] then [] else [UpperChar(s[0])] + Lower(s[1..])
  }

  /** `str.title` continued after a character that was (`prevCased`) or was not cased. */
  function TitleFrom(s: string, prevCased: bool): (r: string)
    ensures |r| == |s|
    decreases |s|
  {
    if s == [] then []
    else [if prevCased then LowerChar(s[0]) else UpperChar(s[0])] + TitleFrom(s[1..], IsLetter(s[0]))
  }

  /** `str.title`. */
  function TitleCase(s: string): string { TitleFrom(s, false) }

  /** A title-cased string: a letter is upper-case exactly when it opens a run of letters. */
  predicate IsTitleCased(s: string)
  {
    forall i :: 0 <= i < |s| && IsLetter(s[i]) ==> (IsUpperChar(s[i]) <==> (i == 0 || !IsLetter(s[i - 1])))
  }

  /** Each character of `str.title` is the input's character upper-cased at the start of a run of letters and lower-cased elsewhere. */
  lemma {:induction false} TitleFromShape(s: string, prevCased: bool)
    ensures var r := TitleFrom(s, prevCased);
      forall i :: 0 <= i < |s| ==>
        r[i] == if (if i == 0 then prevCased else IsLetter(s[i - 1])) then LowerChar(s[i]) else UpperChar(s[i])
    decreases |s|
  {
    if s != [] {
      TitleFromShape(s[1..], IsLetter(s[0]));
      var r := TitleFrom(s, prevCased);
      assert r[1..] == TitleFrom(s[1..], IsLetter(s[0]));
      assert forall i :: 1 <= i < |s| ==> s[1..][i - 1] == s[i] && r[1..][i - 1] == r[i];
    }
  }

  /** Whatever the input, `str.title` yields a title-cased string, and applying it twice changes nothing. */
  lemma TitleCaseIsTitleCased(s: string)
    ensures IsTitleCased(TitleCase(s))
    ensures TitleCase(TitleCase(s)) == TitleCase(s)
  {
    var r := TitleCase(s);
    TitleFromShape(s, false);
    TitleFromShape(r, false);
    forall i | 0 <= i < |s| ensures IsLetter(r[i]) == IsLetter(s[i]) {
      assert r[i] == if (if i == 0 then false else IsLetter(s[i - 1])) then LowerChar(s[i]) else UpperChar(s[i]);
      CaseConversion(s[i]);
    }
    var rr := TitleCase(r);
    forall i | 0 <= i < |s| ensures rr[i] == r[i] {
      assert r[i] == if (if i == 0 then false else IsLetter(s[i - 1])) then LowerChar(s[i]) else UpperChar(s[i]);
      assert rr[i] == if (if i == 0 then false else IsLetter(r[i - 1])) then LowerChar(r[i]) else UpperChar(r[i]);
      CaseConversion(s[i]);
    }
  }

  /** Changing case keeps letters letters, and converting twice is converting once. */
  lemma CaseConversion(c: char)
    ensures IsLetter(UpperChar(c)) == IsLetter(c) && IsLetter(LowerChar(c)) == IsLetter(c)
    ensures UpperChar(UpperChar(c)) == UpperChar(c) && LowerChar(LowerChar(c)) == LowerChar(c)
    ensures IsLetter(c) ==> IsUpperChar(UpperChar(c)) && !IsUpperChar(LowerChar(c))
  {
  }

  lemma {:induction false} TitleFromNonLetter(s: string, prevCased: bool, i: nat)
    requires i < |s| && !IsLetter(s[i])
    ensures TitleFrom(s, prevCased)[i] == s[i]
    decreases |s|
  {
    if i > 0 { TitleFromNonLetter(s[1..], IsLetter(s[0]), i - 1); }
  }

  /** Number of leading whitespace characters. */
  function LeadingSpaces(s: string): (k: nat)
    ensures k <= |s|
    ensures forall i :: 0 <= i < k ==> IsSpace(s[i])
    ensures k < |s| ==> !IsSpace(s[k])
    decreases |s|
  {
    if s != [] && IsSpace(s[0]) then 1 + LeadingSpaces(s[1..]) else 0
  }

  /** Number of trailing whitespace characters. */
  function TrailingSpaces(s: string): (k: nat)
    ensures k <= |s|
    ensures forall i :: |s| - k <= i < |s| ==> IsSpace(s[i])
    ensures k < |s| ==> !IsSpace(s[|s| - 1 - k])
    decreases |s|
  {
    if s != [] && IsSpace(s[|s| - 1]) then 1 + TrailingSpaces(s[..|s| - 1]) else 0
  }

  /** `str.strip()`. */
  function Strip(s: string): (r: string)
    ensures r == [] || (!IsSpace(r[0]) && !IsSpace(r[|r| - 1]))
    ensures exists i :: OccursAt(s, r, i)
    ensures (forall i :: 0 <= i < |s| ==> IsSpace(s[i])) <==> r == []
  {
    var a := LeadingSpaces(s);
    if a == |s| then
      assert OccursAt(s, [], 0);
      []
    else
      var b := TrailingSpaces(s);
      assert !IsSpace(s[a]);
      assert OccursAt(s, s[a..|s| - b], a);
      s[a..|s| - b]
  }

  /** A string without outer whitespace is its own `strip()`. */
  lemma StripUnchanged(s: string)
    requires s != [] && !IsSpace(s[0]) && !IsSpace(s[|s| - 1])
    ensures Strip(s) == s
  {
    assert LeadingSpaces(s) == 0 && TrailingSpaces(s) == 0;
  }

  /** Length of the longest prefix of `s` free of whitespace. */
  function NonSpaceRun(s: string): (k: nat)
    ensures k <= |s|
    ensures forall i :: 0 <= i < k ==> !IsSpace(s[i])
    ensures k < |s| ==> IsSpace(s[k])
    decreases |s|
  {
    if s != [] && !IsSpace(s[0]) then 1 + NonSpaceRun(s[1..]) else 0
  }

  /** `str.split()` with no separator: the maximal runs of non-whitespace characters. */
  function SplitWords(s: string): (r: seq<string>)
    ensures forall i :: 0 <= i < |r| ==> r[i] != [] && NoSpace(r[i])
    decreases |s|
  {
    if s == [] then []
    else if IsSpace(s[0]) then SplitWords(s[1..])
    else
      var k := NonSpaceRun(s);
      [s[..k]] + SplitWords(s[k..])
  }

  /** `str.split(sep)` for a one-character separator: the pieces between separators, empty ones included. */
  function SplitOn(s: string, sep: char): (r: seq<string>)
    ensures |r| >= 1
    ensures forall i :: 0 <= i < |r| ==> sep !in r[i]
    decreases |s|
  {
    if s == [] then [[]]
    else if s[0] == sep then [[]] + SplitOn(s[1..], sep)
    else
      var rest := SplitOn(s[1..], sep);
      [[s[0]] + rest[0]] + rest[1..]
  }

  /** `sep.join(parts)`. */
  function Join(parts: seq<string>, sep: string): string
    decreases |parts|
  {
    if parts == [] then []
    else if |parts| == 1 then parts[0]
    else parts[0] + sep + Join(parts[1..], sep)
  }

  /** `s.startswith(p)`. */
  predicate StartsWith(s: string, p: string) { |p| <= |s| && s[..|p|] == p }

  /** `p` occurs in `s` starting at index `i`. */
  predicate OccursAt(s: string, p: string, i: int)
  {
    0 <= i && i + |p| <= |s| && s[i..i + |p|] == p
  }

  /** `p in s` for strings: `p` occurs in `s` as a contiguous substring. */
  predicate Contains(s: string, p: string)
    decreases |s|
  {
    StartsWith(s, p) || (s != [] && Contains(s[1..], p))
  }

  lemma {:induction false} ContainsIsOccurrence(s: string, p: string)
    ensures Contains(s, p) <==> exists i :: OccursAt(s, p, i)
    decreases |s|
  {
    if s != [] {
      ContainsIsOccurrence(s[1..], p);
      if StartsWith(s, p) {
        assert OccursAt(s, p, 0);
      }
      if Contains(s[1..], p) {
        var i :| OccursAt(s[1..], p, i);
        assert OccursAt(s, p, i + 1);
      }
      if exists i :: OccursAt(s, p, i) {
        var i :| OccursAt(s, p, i);
        if i > 0 { assert OccursAt(s[1..], p, i - 1); }
      }
    } else if p == [] {
      assert OccursAt(s, p, 0);
    }
  }

  /** A string occurs in any longer string that has it at some position. */
  lemma ContainsAt(s: string, p: string, i: int)
    requires OccursAt(s, p, i)
    ensures Contains(s, p)
  {
    ContainsIsOccurrence(s, p);
  }

  /** Python's `w in '.!?'` on a string `w`: `w` is one of the seven contiguous substrings of ".!?", the empty one included. */
  predicate InTerminals(w: string)
  {
    w == "" || w == "." || w == "!" || w == "?" || w == ".!" || w == "!?" || w == ".!?"
  }

  predicate IsTerminalChar(c: char) { c == '.' || c == '!' || c == '?' }

  /** `InTerminals` is exactly substring containment in ".!?". */
  lemma InTerminalsIsSubstring(w: string)
    ensures InTerminals(w) <==> Contains(".!?", w)
  {
    var t := ".!?";
    ContainsIsOccurrence(t, w);
    if Contains(t, w) {
      var i :| OccursAt(t, w, i);
      assert w == t[i..i + |w|];
      assert t[0..0] == "" && t[0..1] == "." && t[1..2] == "!" && t[2..3] == "?";
      assert t[0..2] == ".!" && t[1..3] == "!?" && t[0..3] == ".!?";
      assert t[1..1] == "" && t[2..2] == "" && t[3..3] == "";
    }
    assert OccursAt(t, "", 0) && OccursAt(t, ".", 0) && OccursAt(t, "!", 1) && OccursAt(t, "?", 2);
    assert OccursAt(t, ".!", 0) && OccursAt(t, "!?", 1) && OccursAt(t, ".!?", 0);
  }

  /** Python's `s[:k]` for an integer `k` (a negative `k` counts from the end). */
  function PyTake<T>(s: seq<T>, k: int): (r: seq<T>)
    ensures k >= 0 ==> |r| == if k < |s| then k else |s|
    ensures k < 0 ==> |r| == if -k < |s| then |s| + k else 0
    ensures r == s[..|r|]
  {
    if k >= 0 then (if k < |s| then s[..k] else s)
    else if -k < |s| then s[..|s| + k] else []
  }

  /** `re.sub(r'\s+', ' ', s)`: every maximal run of whitespace becomes one space. */
  function CollapseSpaces(s: string): (r: string)
    ensures forall i :: 0 <= i < |r| && IsSpace(r[i]) ==> r[i] == ' '
    ensures forall i :: 0 <= i < |r| - 1 ==> !(IsSpace(r[i]) && IsSpace(r[i + 1]))
    ensures |r| <= |s|
    ensures s != [] ==> r != [] && (IsSpace(r[0]) <==> IsSpace(s[0]))
    decreases |s|
  {
    if s == [] then []
    else if IsSpace(s[0]) then
      var k := LeadingSpaces(s);
      [' '] + CollapseSpaces(s[k..])
    else [s[0]] + CollapseSpaces(s[1..])
  }

  /** Characters of `s` that are neither a letter nor whitespace: what `re.sub(r'[a-zA-Z\s]', '', s)` keeps. */
  function CountOther(s: string): (k: nat)
    ensures k <= |s|
    decreases |s|
  {
    if s == [] then 0 else (if IsLetter(s[0]) || IsSpace(s[0]) then 0 else 1) + CountOther(s[1..])
  }

  /** `s.replace(pat, rep)` for a non-empty pattern: leftmost occurrences, no overlaps. */
  function ReplaceAll(s: string, pat: string, rep: string): (r: string)
    requires pat != []
    decreases |s|
  {
    if s == [] then []
    else if StartsWith(s, pat) then rep + ReplaceAll(s[|pat|..], pat, rep)
    else [s[0]] + ReplaceAll(s[1..], pat, rep)
  }

  /** After `s.replace(pat, rep)` no occurrence of `pat` is left, when `rep` is non-empty and shares no character with `pat`. */
  lemma ReplaceAllRemoves(s: string, pat: string, rep: string)
    requires pat != [] && rep != [] && forall c :: c in rep ==> c !in pat
    ensures !Contains(ReplaceAll(s, pat, rep), pat)
  {
    ReplaceAllPreserves(s, pat, rep, pat);
  }

  /** An occurrence in a suffix is an occurrence in the whole string. */
  lemma ContainsSuffix(s: string, k: nat, q: string)
    requires k <= |s|
    ensures Contains(s[k..], q) ==> Contains(s, q)
  {
    ContainsIsOccurrence(s[k..], q);
    ContainsIsOccurrence(s, q);
    if Contains(s[k..], q) {
      var i :| OccursAt(s[k..], q, i);
      assert OccursAt(s, q, k + i);
    }
  }

  /**
   * `s.replace(pat, rep)`, with a non-empty `rep` sharing no character with `q`, leaves no
   * occurrence of `q` when `q` is `pat` itself or when `q` does not occur in `s`.
   */
  lemma {:induction false} ReplaceAllPreserves(s: string, pat: string, rep: string, q: string)
    requires pat != [] && q != [] && rep != []
    requires forall c :: c in rep ==> c !in q
    requires q == pat || !Contains(s, q)
    ensures !Contains(ReplaceAll(s, pat, rep), q)
    decreases |s|
  {
    var r := ReplaceAll(s, pat, rep);
    if s == [] {
      return;
    }
    ContainsIsOccurrence(r, q);
    var k := if StartsWith(s, pat) then |pat| else 1;
    var head := if StartsWith(s, pat) then rep else [s[0]];
    var tail := s[k..];
    ContainsSuffix(s, k, q);
    ReplaceAllPreserves(tail, pat, rep, q);
    var rt := ReplaceAll(tail, pat, rep);
    assert r == head + rt;
    ContainsIsOccurrence(rt, q);
    CopiedPrefix(s, pat, rep, q);
    forall i | 0 <= i ensures !OccursAt(r, q, i) {
      if i < |head| {
        if StartsWith(s, pat) {
          assert r[i] == rep[i] && rep[i] in rep;
          NoOccurrenceAt(r, q, i);
        } else {
          assert i == 0;
          assert OccursAt(r, q, 0) ==> StartsWith(r, q);
        }
      } else {
        OccurrenceInTail(head, rt, q, i);
      }
    }
  }

  /** No occurrence of `q` starts at a character that is not in `q`. */
  lemma NoOccurrenceAt(r: string, q: string, i: nat)
    requires q != [] && i < |r| && r[i] !in q
    ensures !OccursAt(r, q, i)
  {
    if i + |q| <= |r| {
      assert r[i..i + |q|][0] == r[i] != q[0];
    }
  }

  /** An occurrence past a prefix is an occurrence in what follows the prefix. */
  lemma OccurrenceInTail(head: string, rt: string, q: string, i: nat)
    requires |head| <= i
    ensures OccursAt(head + rt, q, i) ==> OccursAt(rt, q, i - |head|)
  {
    if i + |q| <= |head + rt| {
      assert (head + rt)[i..i + |q|] == rt[i - |head|..i - |head| + |q|];
    }
  }

  /** If the output of `s.replace(pat, rep)` starts with `q`, and `rep` has no character of `q`, so does `s`. */
  lemma {:induction false} CopiedPrefix(s: string, pat: string, rep: string, q: string)
    requires pat != [] && rep != []
    requires forall c :: c in rep ==> c !in q
    ensures StartsWith(ReplaceAll(s, pat, rep), q) ==> StartsWith(s, q)
    decreases |s|
  {
    var r := ReplaceAll(s, pat, rep);
    if q == [] || s == [] {
    } else if StartsWith(s, pat) {
      assert r[0] == rep[0] && rep[0] in rep;
    } else {
      assert r == [s[0]] + ReplaceAll(s[1..], pat, rep);
      CopiedPrefix(s[1..], pat, rep, q[1..]);
    }
  }

  /** A substring holds no string that the whole does not hold. */
  lemma SubstringAbsent(s: string, r: string, i: nat, q: string)
    requires OccursAt(s, r, i) && !Contains(s, q)
    ensures !Contains(r, q)
  {
    ContainsIsOccurrence(r, q);
    ContainsIsOccurrence(s, q);
    forall j | 0 <= j ensures !OccursAt(r, q, j) {
      if j + |q| <= |r| {
        var u, v := r[j..j + |q|], s[i + j..i + j + |q|];
        assert forall t :: 0 <= t < |q| ==> u[t] == v[t];
        assert u == v;
        assert !OccursAt(s, q, i + j);
      }
    }
  }

  /** `replace` copies a prefix that cannot start an occurrence of the pattern. */
  lemma {:induction false} ReplaceAllSkip(a: string, b: string, pat: string, rep: string)
    requires pat != [] && pat[0] !in a
    ensures ReplaceAll(a + b, pat, rep) == a + ReplaceAll(b, pat, rep)
    decreases |a|
  {
    if a == [] {
      assert a + b == b;
    } else {
      assert (a + b)[0] == a[0] && (a + b)[1..] == a[1..] + b;
      assert !StartsWith(a + b, pat) by { assert (a + b)[0] != pat[0]; }
      ReplaceAllSkip(a[1..], b, pat, rep);
      assert [a[0]] + (a[1..] + ReplaceAll(b, pat, rep)) == a + ReplaceAll(b, pat, rep);
    }
  }

  /** `replace` turns an occurrence at the front into the replacement. */
  lemma ReplaceAllFront(pat: string, b: string, rep: string)
    requires pat != []
    ensures ReplaceAll(pat + b, pat, rep) == rep + ReplaceAll(b, pat, rep)
  {
    assert (pat + b)[..|pat|] == pat && (pat + b)[|pat|..] == b;
  }
}
