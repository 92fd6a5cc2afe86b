/** Decimal text of non-negative integers: Python's `str(n)`, `f"{n:02}"` and `int(s)`. */
module Decimal {
  import opened Text

  function DigitChar(d: nat): (c: char)
    requires d < 10
    ensures IsDigit(c) && DigitValue(c) == d
  {
    ('0' as int + d) as char
  }

  function DigitValue(c: char): (d: nat)
    requires IsDigit(c)
    ensures d < 10
  {
    c as int - '0' as int
  }

  predicate AllDigits(s: string) {
    forall i :: 0 <= i < |s| ==> IsDigit(s[i])
  }

  function Pow10(k: nat): (p: nat)
    ensures p >= 1
  {
    if k == 0 then 1 else 10 * Pow10(k - 1)
  }

  /** `str(n)`: the shortest decimal numeral of `n`. */
  function Show(n: nat): (r: string)
    ensures r != [] && AllDigits(r)
    ensures |r| == 1 <==> n < 10
  {
    if n < 10 then [DigitChar(n)] else Show(n / 10) + [DigitChar(n % 10)]
  }

  /** Value of a string of decimal digits (0 for the empty string). */
  function Parse(s: string): nat
    requires AllDigits(s)
  {
    if s == [] then 0 else Parse(s[..|s| - 1]) * 10 + DigitValue(s[|s| - 1])
  }

  /** `int(str(n)) == n`. */
  lemma {:induction false} ParseShow(n: nat)
    ensures Parse(Show(n)) == n
  {
    if n >= 10 {
      var s := Show(n);
      assert s[..|s| - 1] == Show(n / 10);
      ParseShow(n / 10);
    }
  }

  lemma AllDigitsAppend(a: string, b: string)
    requires AllDigits(a) && AllDigits(b)
    ensures AllDigits(a + b)
  {
    assert forall i :: 0 <= i < |a + b| ==> (a + b)[i] == if i < |a| then a[i] else b[i - |a|];
  }

  /** Shifting by one more digit, as an identity on integers. */
  lemma ShiftOneDigit(x: int, p: int, y: int, d: int)
    ensures (x * p + y) * 10 + d == x * (10 * p) + (y * 10 + d)
  {
  }

  /** The numeral of a concatenation: the left part shifted by the right part's length. */
  lemma {:induction false} ParseAppend(a: string, b: string)
    requires AllDigits(a) && AllDigits(b)
    ensures AllDigits(a + b)
    ensures Parse(a + b) == Parse(a) * Pow10(|b|) + Parse(b)
  {
    AllDigitsAppend(a, b);
    if b == [] {
      assert a + b == a;
    } else {
      var b' := b[..|b| - 1];
      var d := DigitValue(b[|b| - 1]);
      assert (a + b)[..|a + b| - 1] == a + b';
      assert (a + b)[|a + b| - 1] == b[|b| - 1];
      ParseAppend(a, b');
      assert Parse(a + b) == Parse(a + b') * 10 + d;
      assert Parse(b) == Parse(b') * 10 + d;
      assert Pow10(|b|) == 10 * Pow10(|b'|);
      ShiftOneDigit(Parse(a), Pow10(|b'|), Parse(b'), d);
    }
  }

  /** `f"{n:02}"`: at least two digits, zero-padded on the left. */
  function Pad2(n: nat): (r: string)
    ensures AllDigits(r) && |r| >= 2
  {
    if n < 10 then "0" + Show(n) else Show(n)
  }

  /** Below 100 the padded numeral has exactly two digits and reads back as `n`. */
  lemma Pad2Value(n: nat)
    ensures n < 100 ==> |Pad2(n)| == 2
    ensures Parse(Pad2(n)) == n
  {
    ParseShow(n);
    if n < 10 {
      ParseAppend("0", Show(n));
    } else if n < 100 {
      assert Show(n) == Show(n / 10) + [DigitChar(n % 10)];
    }
  }
}
