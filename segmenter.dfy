/**
 * `_split_into_sentences_builtin` of the text processor: abbreviations and decimal
 * numbers are first marked so that their periods do not end a sentence, the text is
 * split after runs of `. ! ?`, and the markers are then turned back into periods.
 */
module Segmenter {
  import opened PyStr

  const AbbrevMarker: string := "<ABBREV>"
  const DecimalMarker: string := "<DECIMAL>"

  /** Length of the run of lower-case letters `s` starts with. */
  function LowerRun(s: string): (k: nat)
    ensures k <= |s|
    ensures forall i :: 0 <= i < k ==> IsLowerChar(s[i])
    ensures k < |s| ==> !IsLowerChar(s[k])
    decreases |s|
  {
    if s != [] && IsLowerChar(s[0]) then 1 + LowerRun(s[1..]) else 0
  }

  /** Length of the run of digits `s` starts with. */
  function DigitRun(s: string): (k: nat)
    ensures k <= |s|
    ensures forall i :: 0 <= i < k ==> IsDigit(s[i])
    ensures k < |s| ==> !IsDigit(s[k])
    decreases |s|
  {
    if s != [] && IsDigit(s[0]) then 1 + DigitRun(s[1..]) else 0
  }

  /** Length of the run of `. ! ?` `s` starts with. */
  function MarkRun(s: string): (k: nat)
    ensures k <= |s|
    ensures forall i :: 0 <= i < k ==> IsTerminalChar(s[i])
    ensures k < |s| ==> !IsTerminalChar(s[k])
    decreases |s|
  {
    if s != [] && IsTerminalChar(s[0]) then 1 + MarkRun(s[1..]) else 0
  }

  /**
   * Length of the match of `[A-Z][a-z]{1,3}\.` at the start of `s`, or 0 when there is
   * none: a capital, one to three lower-case letters and a period.
   */
  function AbbrevAt(s: string): (m: nat)
    ensures m == 0 || (3 <= m <= 5 && m <= |s|)
    ensures m > 0 <==> (s != [] && IsUpperChar(s[0]) && 1 <= LowerRun(s[1..]) <= 3 &&
                        1 + LowerRun(s[1..]) < |s| && s[1 + LowerRun(s[1..])] == '.')
  {
    if s != [] && IsUpperChar(s[0]) then
      var k := LowerRun(s[1..]);
      if 1 <= k <= 3 && 1 + k < |s| && s[1 + k] == '.' then k + 2 else 0
    else 0
  }

  /**
   * `re.sub(r'\b([A-Z][a-z]{1,3}\.)', r'\1<ABBREV>', s)` continued at a point where the
   * previous character was (`afterWord`) or was not a word character: `\b` before the
   * capital asks for the latter.
   */
  function MarkAbbrevFrom(s: string, afterWord: bool): string
    decreases |s|
  {
    if s == [] then []
    else if !afterWord && AbbrevAt(s) > 0 then
      s[..AbbrevAt(s)] + AbbrevMarker + MarkAbbrevFrom(s[AbbrevAt(s)..], false)
    else [s[0]] + MarkAbbrevFrom(s[1..], IsWordChar(s[0]))
  }

  function MarkAbbrev(s: string): string { MarkAbbrevFrom(s, false) }

  /**
   * Length of the match of `\d+\.\d+` at the start of `s`, or 0 when there is none.
   * A shorter first run of digits cannot be followed by the period, so the first run is
   * taken whole, and so is the second.
   */
  function DecimalAt(s: string): (m: nat)
    ensures m == 0 || 3 <= m <= |s|
  {
    if s != [] && IsDigit(s[0]) then
      var e := DigitRun(s);
      if e + 1 < |s| && s[e] == '.' && IsDigit(s[e + 1]) then e + 1 + DigitRun(s[e + 1..]) else 0
    else 0
  }

  /**
   * `re.sub(r'(\d+\.\d+)', r'\1<DECIMAL>', s)`: a run of digits, a period and a run of
   * digits get the marker after them.
   */
  function MarkDecimals(s: string): string
    decreases |s|
  {
    if s == [] then []
    else if DecimalAt(s) > 0 then s[..DecimalAt(s)] + DecimalMarker + MarkDecimals(s[DecimalAt(s)..])
    else [s[0]] + MarkDecimals(s[1..])
  }

  /**
   * Length of the match of `[.!?]+(?:\s+(?=[A-Z])|$)` at the start of `s`, or 0 when
   * there is none: a run of `. ! ?` followed either by whitespace that a capital follows
   * (the whitespace is part of the match), or by the end of the string, or by its final
   * newline. A shorter run cannot match where the whole run does not, so the run is
   * always taken whole.
   */
  function SplitAt(s: string): (m: nat)
    ensures m <= |s|
    ensures m > 0 ==> IsTerminalChar(s[0])
  {
    if s == [] || !IsTerminalChar(s[0]) then 0
    else
      var k := MarkRun(s);
      var w := LeadingSpaces(s[k..]);
      if 0 < w < |s| - k && IsUpperChar(s[k + w]) then k + w
      else if k == |s| || (k == |s| - 1 && s[k] == '\n') then k
      else 0
  }

  /**
   * `re.split(r'[.!?]+(?:\s+(?=[A-Z])|$)', s)`, continued with `piece` as the text
   * collected since the last split point: the scan tries the pattern at each position
   * in turn; where it matches, the current piece ends and the match is dropped.
   */
  function SplitFrom(s: string, piece: string): (r: seq<string>)
    ensures |r| >= 1
    decreases |s|
  {
    if s == [] then [piece]
    else if SplitAt(s) > 0 then [piece] + SplitFrom(s[SplitAt(s)..], [])
    else SplitFrom(s[1..], piece + [s[0]])
  }

  function SplitSentences(s: string): (r: seq<string>)
    ensures |r| >= 1
  {
    SplitFrom(s, [])
  }

  /** The clean-up of one piece: markers back to periods, then `strip()`. */
  function Restore(piece: string): string
  {
    Strip(ReplaceAll(ReplaceAll(piece, AbbrevMarker, "."), DecimalMarker, "."))
  }

  /** A restored piece holds no marker and has no whitespace at either end. */
  lemma RestoreClean(piece: string)
    ensures var r := Restore(piece);
      !Contains(r, AbbrevMarker) && !Contains(r, DecimalMarker) && (r == [] || (!IsSpace(r[0]) && !IsSpace(r[|r| - 1])))
  {
    var a := ReplaceAll(piece, AbbrevMarker, ".");
    ReplaceAllRemoves(piece, AbbrevMarker, ".");
    var b := ReplaceAll(a, DecimalMarker, ".");
    ReplaceAllRemoves(a, DecimalMarker, ".");
    ReplaceAllPreserves(a, DecimalMarker, ".", AbbrevMarker);
    var r := Strip(b);
    var i :| OccursAt(b, r, i);
    SubstringAbsent(b, r, i, AbbrevMarker);
    SubstringAbsent(b, r, i, DecimalMarker);
  }

  /** The restored pieces that are not empty, in order. */
  function Fragments(pieces: seq<string>): seq<string>
    decreases |pieces|
  {
    if pieces == [] then []
    else
      var rest := Fragments(pieces[..|pieces| - 1]);
      var r := Restore(pieces[|pieces| - 1]);
      if r != [] then rest + [r] else rest
  }

  /** What `_split_into_sentences_builtin` returns for `text`. */
  function Sentences(text: string): seq<string>
  {
    Fragments(SplitSentences(MarkDecimals(MarkAbbrev(text))))
  }

  /** A fragment: non-empty, no whitespace at either end, no marker left. */
  predicate IsFragment(s: string)
  {
    s != [] && !IsSpace(s[0]) && !IsSpace(s[|s| - 1]) && !Contains(s, AbbrevMarker) && !Contains(s, DecimalMarker)
  }

  lemma {:induction false} FragmentsClean(pieces: seq<string>)
    ensures forall i :: 0 <= i < |Fragments(pieces)| ==> IsFragment(Fragments(pieces)[i])
    decreases |pieces|
  {
    if pieces != [] {
      FragmentsClean(pieces[..|pieces| - 1]);
      RestoreClean(pieces[|pieces| - 1]);
    }
  }

  /** `_split_into_sentences_builtin`. */
  method SplitIntoSentences(text: string) returns (sentences: seq<string>)
    ensures sentences == Sentences(text)
    ensures forall i :: 0 <= i < |sentences| ==> IsFragment(sentences[i])
  {
    var marked := MarkAbbrev(text);
    marked := MarkDecimals(marked);
    var pieces := SplitSentences(marked);
    sentences := [];
    var j := 0;
    while j < |pieces|
      invariant 0 <= j <= |pieces|
      invariant sentences == Fragments(pieces[..j])
    {
      var sentence := ReplaceAll(pieces[j], AbbrevMarker, ".");
      sentence := ReplaceAll(sentence, DecimalMarker, ".");
      sentence := Strip(sentence);
      assert pieces[..j + 1][..j] == pieces[..j];
      if sentence != [] {
        sentences := sentences + [sentence];
      }
      j := j + 1;
    }
    assert pieces[..|pieces|] == pieces;
    FragmentsClean(pieces);
  }

  /** A character other than `. ! ?` never starts a split point: it joins the current piece. */
  lemma GlueChar(c: char, y: string, piece: string)
    requires !IsTerminalChar(c)
    ensures SplitFrom([c] + y, piece) == SplitFrom(y, piece + [c])
  {
    var s := [c] + y;
    assert s[1..] == y;
    assert SplitAt(s) == 0;
  }

  /** Text without `. ! ?` never holds a split point: all of it joins the current piece. */
  lemma {:induction false} GlueUnmarked(u: string, y: string, piece: string)
    requires forall i :: 0 <= i < |u| ==> !IsTerminalChar(u[i])
    ensures SplitFrom(u + y, piece) == SplitFrom(y, piece + u)
    decreases |u|
  {
    if u == [] {
      assert u + y == y && piece + u == piece;
    } else {
      calc {
        SplitFrom(u + y, piece);
      == { assert u + y == [u[0]] + (u[1..] + y); }
        SplitFrom([u[0]] + (u[1..] + y), piece);
      == { GlueChar(u[0], u[1..] + y, piece); }
        SplitFrom(u[1..] + y, piece + [u[0]]);
      == { GlueUnmarked(u[1..], y, piece + [u[0]]); }
        SplitFrom(y, piece + [u[0]] + u[1..]);
      == { assert piece + [u[0]] + u[1..] == piece + u; }
        SplitFrom(y, piece + u);
      }
    }
  }

  /** A period followed by a character that is neither whitespace nor `. ! ?` never ends a piece. */
  lemma PeriodGlued(c: char, y: string, piece: string)
    requires !IsSpace(c) && !IsTerminalChar(c)
    ensures SplitFrom(['.', c] + y, piece) == SplitFrom([c] + y, piece + ['.'])
  {
    var s := ['.', c] + y;
    assert s[1..] == [c] + y;
    assert MarkRun(s[1..]) == 0;
    assert SplitAt(s) == 0;
  }

  /** The period of a marked abbreviation stays in its piece, and so does the marker after it. */
  lemma AbbrevPeriodKept(y: string, piece: string)
    ensures SplitFrom(['.'] + AbbrevMarker + y, piece) == SplitFrom(y, piece + ['.'] + AbbrevMarker)
  {
    var m := AbbrevMarker;
    calc {
      SplitFrom(['.'] + m + y, piece);
    == { assert ['.'] + m + y == ['.', '<'] + (m[1..] + y); }
      SplitFrom(['.', '<'] + (m[1..] + y), piece);
    == { PeriodGlued('<', m[1..] + y, piece); }
      SplitFrom(['<'] + (m[1..] + y), piece + ['.']);
    == { assert ['<'] + (m[1..] + y) == m + y; }
      SplitFrom(m + y, piece + ['.']);
    == { GlueUnmarked(m, y, piece + ['.']); }
      SplitFrom(y, piece + ['.'] + m);
    }
  }

  /** The period inside a decimal number is followed by a digit, so it never ends a piece either. */
  lemma DecimalPeriodKept(d: char, y: string, piece: string)
    requires IsDigit(d)
    ensures SplitFrom(['.', d] + y, piece) == SplitFrom(y, piece + ['.', d])
  {
    PeriodGlued(d, y, piece);
    GlueChar(d, y, piece + ['.']);
    assert piece + ['.'] + [d] == piece + ['.', d];
  }

  /** Splitting `s` at `k`, with the marker inserted there or not, and deleting the markers. */
  lemma DeleteMarker(s: string, k: nat, marker: string, inserted: bool, x: string)
    requires k <= |s| && '<' !in s && marker != [] && marker[0] == '<'
    requires ReplaceAll(x, marker, "") == s[k..]
    ensures ReplaceAll(s[..k] + (if inserted then marker else "") + x, marker, "") == s
  {
    assert '<' !in s[..k];
    var tail := (if inserted then marker else "") + x;
    assert s[..k] + (if inserted then marker else "") + x == s[..k] + tail;
    ReplaceAllSkip(s[..k], tail, marker, "");
    if inserted {
      ReplaceAllFront(marker, x, "");
    } else {
      assert tail == x;
    }
    assert s[..k] + s[k..] == s;
  }

  /** Deleting the markers from the marked text gives the text back: marking only inserts markers. */
  lemma {:induction false} MarkAbbrevUnmarked(s: string, afterWord: bool)
    requires '<' !in s
    ensures ReplaceAll(MarkAbbrevFrom(s, afterWord), AbbrevMarker, "") == s
    decreases |s|
  {
    if s == [] {
    } else if !afterWord && AbbrevAt(s) > 0 {
      var m := AbbrevAt(s);
      assert '<' !in s[m..];
      MarkAbbrevUnmarked(s[m..], false);
      DeleteMarker(s, m, AbbrevMarker, true, MarkAbbrevFrom(s[m..], false));
    } else {
      assert '<' !in s[1..];
      MarkAbbrevUnmarked(s[1..], IsWordChar(s[0]));
      DeleteMarker(s, 1, AbbrevMarker, false, MarkAbbrevFrom(s[1..], IsWordChar(s[0])));
      assert MarkAbbrevFrom(s, afterWord) == s[..1] + "" + MarkAbbrevFrom(s[1..], IsWordChar(s[0]));
    }
  }

  /** The same for the decimal markers. */
  lemma {:induction false} MarkDecimalsUnmarked(s: string)
    requires '<' !in s
    ensures ReplaceAll(MarkDecimals(s), DecimalMarker, "") == s
    decreases |s|
  {
    if s == [] {
    } else if DecimalAt(s) > 0 {
      var m := DecimalAt(s);
      assert '<' !in s[m..];
      MarkDecimalsUnmarked(s[m..]);
      DeleteMarker(s, m, DecimalMarker, true, MarkDecimals(s[m..]));
    } else {
      assert '<' !in s[1..];
      MarkDecimalsUnmarked(s[1..]);
      DeleteMarker(s, 1, DecimalMarker, false, MarkDecimals(s[1..]));
      assert MarkDecimals(s) == s[..1] + "" + MarkDecimals(s[1..]);
    }
  }

  /** A capital, one to three lower-case letters and a period: what the abbreviation pattern matches. */
  predicate IsAbbrev(a: string)
  {
    3 <= |a| <= 5 && IsUpperChar(a[0]) && a[|a| - 1] == '.' &&
    forall i :: 1 <= i < |a| - 1 ==> IsLowerChar(a[i])
  }

  /**
   * An abbreviation that does not follow a word character is marked, whatever comes
   * after it.
   */
  lemma AbbrevMarked(a: string, rest: string)
    requires IsAbbrev(a)
    ensures MarkAbbrevFrom(a + rest, false) == a + AbbrevMarker + MarkAbbrevFrom(rest, false)
  {
    var s := a + rest;
    LowerRunStops(a[1..], rest);
    assert s[1..] == a[1..] + rest;
    assert AbbrevAt(s) == |a|;
    assert s[..|a|] == a && s[|a|..] == rest;
  }

  /** The lower-case run of `u + v` ends inside `u` when `u` ends with something else. */
  lemma LowerRunStops(u: string, v: string)
    requires u != [] && !IsLowerChar(u[|u| - 1])
    requires forall i :: 0 <= i < |u| - 1 ==> IsLowerChar(u[i])
    ensures LowerRun(u + v) == |u| - 1
    decreases |u|
  {
    if |u| > 1 {
      assert (u + v)[1..] == u[1..] + v;
      LowerRunStops(u[1..], v);
    }
  }

  /** Restoring a marked abbreviation doubles its period: `Dr.<ABBREV>` becomes `Dr..`. */
  lemma AbbrevRestored(a: string, rest: string)
    requires IsAbbrev(a)
    ensures ReplaceAll(a + AbbrevMarker + rest, AbbrevMarker, ".") == a + "." + ReplaceAll(rest, AbbrevMarker, ".")
  {
    assert '<' !in a;
    assert a + AbbrevMarker + rest == a + (AbbrevMarker + rest);
    ReplaceAllSkip(a, AbbrevMarker + rest, AbbrevMarker, ".");
    ReplaceAllFront(AbbrevMarker, rest, ".");
  }

  /** Digits, a period at index `p`, digits: what the decimal pattern matches. */
  predicate IsDecimal(x: string, p: nat)
  {
    0 < p < |x| - 1 && x[p] == '.' && forall i :: 0 <= i < |x| && i != p ==> IsDigit(x[i])
  }

  /** The digit run of `u + v` is `u` when `u` is all digits and `v` does not start with one. */
  lemma {:induction false} DigitRunStops(u: string, v: string)
    requires forall i :: 0 <= i < |u| ==> IsDigit(u[i])
    requires v == [] || !IsDigit(v[0])
    ensures DigitRun(u + v) == |u|
    decreases |u|
  {
    if u == [] {
      assert u + v == v;
    } else {
      assert (u + v)[1..] == u[1..] + v;
      DigitRunStops(u[1..], v);
    }
  }

  /** A decimal number that no further digit follows gets the marker right after it. */
  lemma DecimalMarked(x: string, p: nat, rest: string)
    requires IsDecimal(x, p) && (rest == [] || !IsDigit(rest[0]))
    ensures MarkDecimals(x + rest) == x + DecimalMarker + MarkDecimals(rest)
  {
    var s := x + rest;
    DecimalMatch(x, p, rest);
    assert s[..|x|] == x && s[|x|..] == rest;
  }

  /** The decimal pattern matches exactly such a number. */
  lemma DecimalMatch(x: string, p: nat, rest: string)
    requires IsDecimal(x, p) && (rest == [] || !IsDigit(rest[0]))
    ensures DecimalAt(x + rest) == |x|
  {
    var s := x + rest;
    var u, v := x[..p], x[p + 1..];
    assert forall i :: 0 <= i < |u| ==> IsDigit(u[i]) by {
      forall i | 0 <= i < |u| ensures IsDigit(u[i]) { assert u[i] == x[i]; }
    }
    assert forall i :: 0 <= i < |v| ==> IsDigit(v[i]) by {
      forall i | 0 <= i < |v| ensures IsDigit(v[i]) { assert v[i] == x[p + 1 + i]; }
    }
    assert s == u + s[p..];
    DigitRunStops(u, s[p..]);
    assert s[p + 1..] == v + rest;
    DigitRunStops(v, rest);
    assert s[0] == x[0] && s[p] == '.' && s[p + 1] == x[p + 1];
  }
}
