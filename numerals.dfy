/**
 * Decimal rendering of counts: `str(n)` and the thousands-separated `f"{n:,}"` the
 * chatbot's status reply uses.
 */
module Numerals {
  import opened PyStr

  /** The character of a decimal digit. */
  function DigitChar(d: nat): (c: char)
    requires d < 10
    ensures IsDigit(c)
  {
    ('0' as int + d) as char
  }

  /** The value of a digit character. */
  function DigitValue(c: char): nat
    requires IsDigit(c)
  {
    c as int - '0' as int
  }

  /** `str(n)`: the shortest decimal rendering. */
  function Digits(n: nat): (r: string)
    ensures r != [] && forall i :: 0 <= i < |r| ==> IsDigit(r[i])
    decreases n
  {
    if n < 10 then [DigitChar(n)] else Digits(n / 10) + [DigitChar(n % 10)]
  }

  /** `str(i)` of any integer: a minus sign before the digits of a negative one. */
  function Decimal(i: int): string
  {
    if i < 0 then "-" + Digits(-i) else Digits(i)
  }

  /** The value a string of digits denotes, most significant digit first. */
  function ValueOf(s: string): nat
    requires forall i :: 0 <= i < |s| ==> IsDigit(s[i])
    decreases |s|
  {
    if s == [] then 0 else 10 * ValueOf(s[..|s| - 1]) + DigitValue(s[|s| - 1])
  }

  /** Reading back what `str(n)` wrote gives `n`, and only zero is written with a leading `0`. */
  lemma {:induction false} DigitsValue(n: nat)
    ensures ValueOf(Digits(n)) == n
    ensures Digits(n)[0] == '0' ==> n == 0
    decreases n
  {
    if n >= 10 {
      DigitsValue(n / 10);
      var r := Digits(n);
      assert r[..|r| - 1] == Digits(n / 10);
      assert r[0] == Digits(n / 10)[0];
    }
  }

  /** `str` is one-to-one. */
  lemma DigitsInjective(m: nat, n: nat)
    ensures Digits(m) == Digits(n) ==> m == n
  {
    DigitsValue(m);
    DigitsValue(n);
  }

  /** The three digits of a group below a comma, zero-padded. */
  function Group(r: nat): (g: string)
    requires r < 1000
    ensures |g| == 3
  {
    [DigitChar(r / 100), DigitChar(r / 10 % 10), DigitChar(r % 10)]
  }

  /** `f"{n:,}"`: the decimal rendering with a comma between groups of three digits, from the right. */
  function Grouped(n: nat): string
    decreases n
  {
    if n < 1000 then Digits(n) else Grouped(n / 1000) + "," + Group(n % 1000)
  }

  /** The string without its commas. */
  function Uncomma(s: string): (r: string)
    ensures |r| <= |s|
    decreases |s|
  {
    if s == [] then [] else Uncomma(s[..|s| - 1]) + (if s[|s| - 1] == ',' then [] else [s[|s| - 1]])
  }

  lemma {:induction false} UncommaAppend(a: string, b: string)
    ensures Uncomma(a + b) == Uncomma(a) + Uncomma(b)
    decreases |b|
  {
    if b == [] {
      assert a + b == a;
    } else {
      UncommaAppend(a, b[..|b| - 1]);
      assert (a + b)[..|a + b| - 1] == a + b[..|b| - 1];
    }
  }

  lemma {:induction false} UncommaDigits(s: string)
    requires forall i :: 0 <= i < |s| ==> IsDigit(s[i])
    ensures Uncomma(s) == s
    decreases |s|
  {
    if s != [] {
      UncommaDigits(s[..|s| - 1]);
    }
  }

  /** Division by ten is determined by quotient and remainder. */
  lemma DivTen(n: nat, q: nat, r: nat)
    requires r < 10 && n == 10 * q + r
    ensures n / 10 == q && n % 10 == r
  {
  }

  /** The last three decimal digits of `n`, read off one division by ten at a time. */
  lemma ThousandDigits(n: nat)
    ensures n / 10 / 10 / 10 == n / 1000
    ensures n / 10 / 10 % 10 == n % 1000 / 100
    ensures n / 10 % 10 == n % 1000 / 10 % 10
    ensures n % 10 == n % 1000 % 10
  {
    var q, r := n / 1000, n % 1000;
    var h, t, u := r / 100, r / 10 % 10, r % 10;
    assert r == 100 * h + 10 * t + u;
    DivTen(n, 100 * q + 10 * h + t, u);
    DivTen(n / 10, 10 * q + h, t);
    DivTen(n / 10 / 10, q, h);
  }

  /** Three more decimal places: the rendering of `1000 * q + r` is that of `q` followed by the padded group. */
  lemma DigitsShift(n: nat)
    requires n >= 1000
    ensures Digits(n) == Digits(n / 1000) + Group(n % 1000)
  {
    var r := n % 1000;
    ThousandDigits(n);
    var q1 := n / 10;
    var q2 := q1 / 10;
    assert Digits(n) == Digits(q1) + [DigitChar(r % 10)];
    assert Digits(q1) == Digits(q2) + [DigitChar(r / 10 % 10)];
    assert Digits(q2) == Digits(n / 1000) + [DigitChar(r / 100)];
  }

  /** Dropping the separators from `f"{n:,}"` gives `str(n)`. */
  lemma {:induction false} GroupedDigits(n: nat)
    ensures Uncomma(Grouped(n)) == Digits(n)
    decreases n
  {
    if n < 1000 {
      UncommaDigits(Digits(n));
    } else {
      var g := Group(n % 1000);
      var head := Grouped(n / 1000);
      assert Uncomma(",") == [] by { assert ","[..0] == []; }
      calc {
        Uncomma(Grouped(n));
        Uncomma(head + "," + g);
        { UncommaAppend(head + ",", g); }
        Uncomma(head + ",") + Uncomma(g);
        { UncommaAppend(head, ","); }
        Uncomma(head) + Uncomma(g);
        { GroupedDigits(n / 1000); UncommaDigits(g); }
        Digits(n / 1000) + g;
        { DigitsShift(n); }
        Digits(n);
      }
    }
  }
}
