/** Digit strings as Python's integer formatting produces them: minimal
    digit strings in a base up to 16, zero-filling to a width, and the
    sign-aware zero padding of a `'{:0N}'` format. */
module Numerals {

  function Pow(b: nat, e: nat): (r: nat)
    ensures b >= 1 ==> r >= 1
    ensures b >= 2 && e >= 1 ==> r >= 2
  {
    if e == 0 then 1 else b * Pow(b, e - 1)
  }

  /** The lower-case digit character of value d (Python's `x` and `b` formats). */
  function DigitChar(d: nat): (c: char)
    requires d < 16
  {
    if d < 10 then ('0' as int + d) as char else ('a' as int + d - 10) as char
  }

  /** The value of a digit character; characters that are not digits count as 16. */
  function DigitValue(c: char): (d: nat)
    ensures d <= 16
  {
    if '0' <= c <= '9' then c as int - '0' as int
    else if 'a' <= c <= 'f' then c as int - 'a' as int + 10
    else 16
  }

  lemma DigitRoundTrip(d: nat)
    requires d < 16
    ensures DigitValue(DigitChar(d)) == d
  {
  }

  /** Every character of s is a digit of base b. */
  predicate AllDigits(s: string, b: nat)
  {
    forall i :: 0 <= i < |s| ==> DigitValue(s[i]) < b
  }

  /** The value of a digit string read most significant digit first. */
  function ValueOf(s: string, b: nat): nat
  {
    if s == [] then 0
    else ValueOf(s[..|s| - 1], b) * b + (if DigitValue(s[|s| - 1]) < b then DigitValue(s[|s| - 1]) else 0)
  }

  /** The minimal digit string of v in base b ("0" for zero), as Python's
      `format(v, 'b')`, `format(v, 'x')` and `str(v)` write it. */
  function Digits(v: nat, b: nat): (s: string)
    requires 2 <= b <= 16
    ensures 1 <= |s|
    decreases v
  {
    if v < b then [DigitChar(v)] else Digits(v / b, b) + [DigitChar(v % b)]
  }

  /** Every character Digits writes is a digit of the base. */
  lemma {:induction false} DigitsAreDigits(v: nat, b: nat)
    requires 2 <= b <= 16
    ensures AllDigits(Digits(v, b), b)
    decreases v
  {
    var s := Digits(v, b);
    if v < b {
      DigitRoundTrip(v);
    } else {
      DivMod(v, b);
      var init := Digits(v / b, b);
      DigitsAreDigits(v / b, b);
      DigitRoundTrip(v % b);
      assert s == init + [DigitChar(v % b)];
      forall i | 0 <= i < |s| ensures DigitValue(s[i]) < b {
        if i < |init| {
          assert s[i] == init[i];
        }
      }
    }
  }

  /** The decimal rendering of a natural number, as Python's `str`. */
  function Decimal(v: nat): (s: string)
    ensures 1 <= |s|
  {
    Digits(v, 10)
  }

  lemma {:induction false} DigitsValue(v: nat, b: nat)
    requires 2 <= b <= 16
    ensures ValueOf(Digits(v, b), b) == v
    decreases v
  {
    var s := Digits(v, b);
    if v < b {
      assert s[..0] == [];
      DigitRoundTrip(v);
    } else {
      var q, r := v / b, v % b;
      DivMod(v, b);
      DigitsValue(q, b);
      assert s[..|s| - 1] == Digits(q, b);
      DigitRoundTrip(r);
      assert DigitValue(s[|s| - 1]) == r;
      calc {
        ValueOf(s, b);
        ValueOf(Digits(q, b), b) * b + r;
        q * b + r;
        { DivMod(v, b); }
        v;
      }
    }
  }

  lemma DivMod(v: nat, b: nat)
    requires b >= 2
    ensures v == (v / b) * b + v % b && 0 <= v % b < b
    ensures v >= b ==> 1 <= v / b < v
  {
  }

  /** Distinct naturals have distinct digit strings. */
  lemma DigitsInjective(v: nat, w: nat, b: nat)
    requires 2 <= b <= 16
    requires Digits(v, b) == Digits(w, b)
    ensures v == w
  {
    DigitsValue(v, b);
    DigitsValue(w, b);
  }

  lemma DivBelowPow(v: nat, b: nat, w: nat)
    requires b >= 2 && w >= 1 && v < Pow(b, w)
    ensures v / b < Pow(b, w - 1)
  {
    var p := Pow(b, w - 1);
    assert Pow(b, w) == b * p;
    DivMod(v, b);
    if v / b >= p {
      MulLe(p, v / b, b);
    }
  }

  /** A value below b^w needs at most w digits. */
  lemma {:induction false} DigitsFit(v: nat, b: nat, w: nat)
    requires 2 <= b <= 16 && w >= 1 && v < Pow(b, w)
    ensures |Digits(v, b)| <= w
    decreases v
  {
    if v >= b {
      assert Pow(b, 1) == b * Pow(b, 0);
      assert w >= 2;
      DivMod(v, b);
      DivBelowPow(v, b, w);
      DigitsFit(v / b, b, w - 1);
    }
  }

  function Repeat(c: char, n: nat): (r: string)
    ensures |r| == n
    ensures forall i :: 0 <= i < n ==> r[i] == c
  {
    if n == 0 then [] else [c] + Repeat(c, n - 1)
  }

  /** Left-fill s with '0' up to width w, as `str.zfill(w)` does for an
      unsigned digit string and as the `0` flag of a format spec does. */
  function ZFill(s: string, w: nat): (r: string)
    ensures |r| == if |s| >= w then |s| else w
    ensures r[|r| - |s|..] == s
    ensures forall i :: 0 <= i < |r| - |s| ==> r[i] == '0'
  {
    if |s| >= w then s else Repeat('0', w - |s|) + s
  }

  lemma {:induction false} LeadingZerosValue(n: nat, s: string, b: nat)
    requires b >= 1
    ensures ValueOf(Repeat('0', n) + s, b) == ValueOf(s, b)
    decreases |s|
  {
    if s == [] {
      assert Repeat('0', n) + s == Repeat('0', n);
      ZerosValue(n, b);
    } else {
      var t := Repeat('0', n) + s;
      assert t[..|t| - 1] == Repeat('0', n) + s[..|s| - 1];
      LeadingZerosValue(n, s[..|s| - 1], b);
    }
  }

  lemma {:induction false} ZerosValue(n: nat, b: nat)
    requires b >= 1
    ensures ValueOf(Repeat('0', n), b) == 0
  {
    if n > 0 {
      var z := Repeat('0', n);
      assert z[..n - 1] == Repeat('0', n - 1);
      ZerosValue(n - 1, b);
    }
  }

  /** Zero-filling never changes the value a digit string denotes. */
  lemma ZFillValue(s: string, w: nat, b: nat)
    requires b >= 1
    ensures ValueOf(ZFill(s, w), b) == ValueOf(s, b)
  {
    if |s| < w {
      LeadingZerosValue(w - |s|, s, b);
    }
  }

  lemma ZFillDigits(s: string, w: nat, b: nat)
    requires b >= 1 && AllDigits(s, b)
    ensures AllDigits(ZFill(s, w), b)
  {
    var r := ZFill(s, w);
    forall i | 0 <= i < |r|
      ensures DigitValue(r[i]) < b
    {
      if i >= |r| - |s| {
        assert r[i] == r[|r| - |s|..][i - (|r| - |s|)];
      }
    }
  }

  /** Python's `'{:0Nd}'.format(v)` for an integer: sign-aware zero padding
      to N characters in all, the minus sign included. */
  function FormatPadded(v: int, w: nat): (r: string)
    ensures v >= 0 ==> ValueOf(r, 10) == v && AllDigits(r, 10)
    ensures v >= 0 ==> |r| == if |Decimal(v)| >= w then |Decimal(v)| else w
    ensures v < 0 ==> |r| >= 2 && r[0] == '-' && ValueOf(r[1..], 10) == -v
  {
    if v < 0 then
      SignedDecimal(-v, if w >= 1 then w - 1 else 0);
      "-" + ZFill(Decimal(-v), if w >= 1 then w - 1 else 0)
    else
      PaddedDecimal(v, w);
      ZFill(Decimal(v), w)
  }

  /** A minus sign before the padded digits of v: what follows the sign
      denotes v. */
  lemma SignedDecimal(v: nat, w: nat)
    ensures var r := "-" + ZFill(Decimal(v), w); |r| >= 2 && r[0] == '-' && ValueOf(r[1..], 10) == v
  {
    var digits := ZFill(Decimal(v), w);
    PaddedDecimal(v, w);
    assert ("-" + digits)[1..] == digits;
  }

  /** Zero-padding the decimal digits of v keeps a string of digits that
      denotes v. */
  lemma PaddedDecimal(v: nat, w: nat)
    ensures ValueOf(ZFill(Decimal(v), w), 10) == v && AllDigits(ZFill(Decimal(v), w), 10)
  {
    DigitsValue(v, 10);
    DigitsAreDigits(v, 10);
    ZFillValue(Decimal(v), w, 10);
    ZFillDigits(Decimal(v), w, 10);
  }

  lemma MulLe(a: int, c: int, b: int)
    requires a <= c && b >= 0
    ensures a * b <= c * b
  {
  }

  lemma MulMono(a: int, c: int, m: int)
    requires m >= 1
    ensures a < c ==> (a + 1) * m <= c * m
  {
    if a < c { MulLe(a + 1, c, m); }
  }

  /** Quotient and remainder are unique: a remainder in [0, m) is the remainder. */
  lemma ModUnique(a: int, m: int, q: int, r: int)
    requires m >= 1 && a == q * m + r && 0 <= r < m
    ensures a % m == r && a / m == q
  {
    var q', r' := a / m, a % m;
    assert a == q' * m + r';
    MulMono(q, q', m);
    MulMono(q', q, m);
  }

  lemma BelowStep(v: int, d: int, b: int, p: int)
    requires 0 <= v < p && 0 <= d < b
    ensures v * b + d < b * p
  {
    MulLe(v + 1, p, b);
  }

  lemma Distrib(a: int, p: int, q: int, b: int)
    ensures (a * p + q) * b == a * (p * b) + q * b
  {
  }

  /** A digit string of length n denotes a value below b^n. */
  lemma {:induction false} ValueBelowPow(s: string, b: nat)
    requires b >= 1 && AllDigits(s, b)
    ensures ValueOf(s, b) < Pow(b, |s|)
    decreases |s|
  {
    if s != [] {
      var t := s[..|s| - 1];
      assert AllDigits(t, b) by {
        forall i | 0 <= i < |t| ensures DigitValue(t[i]) < b { assert t[i] == s[i]; }
      }
      ValueBelowPow(t, b);
      var d := DigitValue(s[|s| - 1]);
      var vt, p := ValueOf(t, b), Pow(b, |t|);
      assert ValueOf(s, b) == vt * b + d;
      BelowStep(vt, d, b, p);
      assert Pow(b, |s|) == b * p;
    }
  }

  /** The leading digit of a digit string weighs b^(n-1). */
  lemma {:induction false} ValueFront(s: string, b: nat)
    requires b >= 1 && |s| >= 1 && AllDigits(s, b)
    ensures ValueOf(s, b) == DigitValue(s[0]) * Pow(b, |s| - 1) + ValueOf(s[1..], b)
    decreases |s|
  {
    if |s| == 1 {
      assert s[..0] == [];
      assert s[1..] == [];
    } else {
      var t := s[..|s| - 1];
      assert AllDigits(t, b) by {
        forall i | 0 <= i < |t| ensures DigitValue(t[i]) < b { assert t[i] == s[i]; }
      }
      ValueFront(t, b);
      var d0, dl := DigitValue(s[0]), DigitValue(s[|s| - 1]);
      var u := s[1..];
      assert u[..|u| - 1] == t[1..];
      assert u[|u| - 1] == s[|s| - 1];
      assert t[0] == s[0];
      var p, vt, vu := Pow(b, |t| - 1), ValueOf(t[1..], b), ValueOf(u, b);
      assert vu == vt * b + dl;
      assert Pow(b, |s| - 1) == b * p;
      assert ValueOf(s, b) == ValueOf(t, b) * b + dl;
      assert ValueOf(t, b) == d0 * p + vt;
      Distrib(d0, p, vt, b);
    }
  }

  function Reverse<T>(s: seq<T>): (r: seq<T>)
    ensures |r| == |s|
    ensures forall i :: 0 <= i < |s| ==> r[i] == s[|s| - 1 - i]
  {
    if s == [] then [] else Reverse(s[1..]) + [s[0]]
  }
}
