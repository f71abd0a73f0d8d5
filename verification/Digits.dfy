/** Decimal numerals: fixed width, and of natural length. */
module Digits {

  function DigitChar(d: nat): (c: char)
    requires d < 10
    ensures IsDigit(c)
    ensures DigitValue(c) == d
  {
    '0' + (d as char)
  }

  predicate IsDigit(c: char) {
    '0' <= c <= '9'
  }

  function DigitValue(c: char): (d: nat)
    requires IsDigit(c)
    ensures d < 10
  {
    c as int - '0' as int
  }

  predicate AllDigits(s: string) {
    forall i :: 0 <= i < |s| ==> IsDigit(s[i])
  }

  /** Number(s) on a string of digits. */
  function NumberOf(s: string): nat
    requires AllDigits(s)
  {
    if s == "" then 0 else 10 * NumberOf(s[..|s| - 1]) + DigitValue(s[|s| - 1])
  }

  function Power10(w: nat): (r: nat)
    ensures r >= 1
  {
    if w == 0 then 1 else 10 * Power10(w - 1)
  }

  /** The last w decimal digits of n. */
  function Pad(n: nat, w: nat): (s: string)
    ensures |s| == w && AllDigits(s)
  {
    if w == 0 then "" else Pad(n / 10, w - 1) + [DigitChar(n % 10)]
  }

  lemma {:induction false} NumberOfPad(n: nat, w: nat)
    requires n < Power10(w)
    ensures NumberOf(Pad(n, w)) == n
  {
    if w > 0 {
      NumberOfPad(n / 10, w - 1);
      var s := Pad(n, w);
      assert s[..w - 1] == Pad(n / 10, w - 1);
    }
  }

  lemma {:induction false} PadOfNumber(s: string)
    requires AllDigits(s)
    ensures NumberOf(s) < Power10(|s|)
    ensures Pad(NumberOf(s), |s|) == s
    decreases |s|
  {
    if s != "" {
      var w := |s|;
      PadOfNumber(s[..w - 1]);
      assert NumberOf(s) / 10 == NumberOf(s[..w - 1]) && NumberOf(s) % 10 == DigitValue(s[w - 1]);
      assert DigitChar(DigitValue(s[w - 1])) == s[w - 1];
      assert s == s[..w - 1] + [s[w - 1]];
    }
  }

  /** String(n). */
  function Decimal(n: nat): (s: string)
    ensures s != "" && AllDigits(s)
  {
    if n < 10 then [DigitChar(n)] else Decimal(n / 10) + [DigitChar(n % 10)]
  }

  lemma {:induction false} NumberOfDecimal(n: nat)
    ensures NumberOf(Decimal(n)) == n
  {
    if n < 10 {
      assert Decimal(n)[..0] == "";
    } else {
      NumberOfDecimal(n / 10);
      assert Decimal(n)[..|Decimal(n)| - 1] == Decimal(n / 10);
    }
  }

  /** Distinct numbers have distinct numerals. */
  lemma DecimalInjective(m: nat, n: nat)
    requires Decimal(m) == Decimal(n)
    ensures m == n
  {
    NumberOfDecimal(m);
    NumberOfDecimal(n);
  }

  // ---------------------------------------------------------------- order

  /** The < of JavaScript on strings. */
  predicate StringLess(a: string, b: string) {
    if b == "" then false
    else if a == "" then true
    else a[0] < b[0] || (a[0] == b[0] && StringLess(a[1..], b[1..]))
  }

  lemma {:induction false} StringLessPrefix(p: string, a: string, b: string)
    ensures StringLess(p + a, p + b) <==> StringLess(a, b)
    decreases |p|
  {
    if p == "" {
      assert p + a == a && p + b == b;
    } else {
      assert (p + a)[1..] == p[1..] + a && (p + b)[1..] == p[1..] + b;
      StringLessPrefix(p[1..], a, b);
    }
  }

  /** Between strings whose equally long heads differ, the heads decide. */
  lemma {:induction false} StringLessHead(p: string, q: string, a: string, b: string)
    requires |p| == |q| && p != q
    ensures StringLess(p + a, q + b) <==> StringLess(p, q)
    decreases |p|
  {
    assert (p + a)[1..] == p[1..] + a && (q + b)[1..] == q[1..] + b;
    if p[0] == q[0] {
      assert p == [p[0]] + p[1..] && q == [q[0]] + q[1..];
      StringLessHead(p[1..], q[1..], a, b);
    }
  }

  /** Numerals of one width are ordered as strings as their values are. */
  lemma {:induction false} PadOrder(m: nat, n: nat, w: nat)
    requires m < Power10(w) && n < Power10(w)
    ensures StringLess(Pad(m, w), Pad(n, w)) <==> m < n
  {
    if w > 0 {
      var p, q := Pad(m / 10, w - 1), Pad(n / 10, w - 1);
      PadOrder(m / 10, n / 10, w - 1);
      NumberOfPad(m / 10, w - 1);
      NumberOfPad(n / 10, w - 1);
      if m / 10 == n / 10 {
        StringLessPrefix(p, [DigitChar(m % 10)], [DigitChar(n % 10)]);
      } else {
        StringLessHead(p, q, [DigitChar(m % 10)], [DigitChar(n % 10)]);
      }
    }
  }
}
