/** Decimal digit strings: their values, printing, and rounding at a digit. */
module Decimal {
  predicate IsDigit(c: char) {
    '0' <= c <= '9'
  }

  predicate AllDigits(s: string) {
    forall i :: 0 <= i < |s| ==> IsDigit(s[i])
  }

  function DigitValue(c: char): nat
    requires IsDigit(c)
  {
    c as int - '0' as int
  }

  function DigitChar(d: nat): (c: char)
    requires d < 10
    ensures IsDigit(c) && DigitValue(c) == d
  {
    ('0' as int + d) as char
  }

  function Pow10(n: nat): (p: nat)
    ensures p > 0
  {
    if n == 0 then 1 else 10 * Pow10(n - 1)
  }

  function Value(s: string): nat
    requires AllDigits(s)
  {
    if s == "" then 0 else 10 * Value(s[..|s| - 1]) + DigitValue(s[|s| - 1])
  }

  lemma Distribute(x: int, d: int, p: int)
    ensures (10 * x + d) * p == 10 * (x * p) + d * p
    ensures x * (10 * p) == 10 * (x * p)
  {}

  lemma ValueSnoc(init: string, c: char)
    requires AllDigits(init + [c])
    ensures AllDigits(init) && IsDigit(c)
    ensures Value(init + [c]) == 10 * Value(init) + DigitValue(c)
  {
    var s := init + [c];
    assert s[..|s| - 1] == init && s[|s| - 1] == c;
    assert forall i :: 0 <= i < |init| ==> s[i] == init[i];
  }

  lemma DigitsConcat(a: string, b: string)
    requires AllDigits(a) && AllDigits(b)
    ensures AllDigits(a + b)
  {}

  lemma {:induction false} ValueConcat(a: string, b: string)
    requires AllDigits(a) && AllDigits(b)
    ensures AllDigits(a + b)
    ensures Value(a + b) == Value(a) * Pow10(|b|) + Value(b)
  {
    DigitsConcat(a, b);
    if b == "" {
      assert a + b == a;
    } else {
      var init, last := b[..|b| - 1], b[|b| - 1];
      assert b == init + [last] && a + b == (a + init) + [last];
      ValueSnoc(init, last);
      ValueSnoc(a + init, last);
      ValueConcat(a, init);
      assert Pow10(|b|) == 10 * Pow10(|init|);
      hide Value, AllDigits, Pow10;
      Distribute(Value(a), 0, Pow10(|init|));
    }
  }

  lemma {:induction false} ValueBelow(s: string)
    requires AllDigits(s)
    ensures Value(s) < Pow10(|s|)
  {
    if s != "" {
      ValueBelow(s[..|s| - 1]);
    }
  }

  function Zeros(n: nat): (z: string)
    ensures |z| == n && AllDigits(z) && forall i :: 0 <= i < n ==> z[i] == '0'
  {
    if n == 0 then "" else Zeros(n - 1) + "0"
  }

  lemma {:induction false} ValueZeros(n: nat)
    ensures Value(Zeros(n)) == 0
  {
    if n > 0 {
      assert Zeros(n)[..n - 1] == Zeros(n - 1);
      ValueZeros(n - 1);
    }
  }

  lemma ValueLeadingZeros(n: nat, s: string)
    requires AllDigits(s)
    ensures AllDigits(Zeros(n) + s) && Value(Zeros(n) + s) == Value(s)
  {
    ValueConcat(Zeros(n), s);
    ValueZeros(n);
  }

  /** The decimal text of a number, without leading zeros. */
  function Text(n: nat): (s: string)
    ensures AllDigits(s) && s != ""
  {
    if n < 10 then [DigitChar(n)] else Text(n / 10) + [DigitChar(n % 10)]
  }

  lemma {:induction false} TextValue(n: nat)
    ensures Value(Text(n)) == n
    ensures Text(n)[0] == '0' ==> n == 0
  {
    if n < 10 {
      assert Text(n)[..0] == "";
    } else {
      TextValue(n / 10);
      assert Text(n)[..|Text(n)| - 1] == Text(n / 10);
    }
  }

  // ---------- Rounding at a digit ----------

  /** The first `k` digits of a fraction, filled up with zeros. */
  function Filled(fraction: string, k: nat): (f: string)
    requires AllDigits(fraction)
    ensures |f| == k && AllDigits(f)
  {
    if |fraction| >= k then fraction[..k] else fraction + Zeros(k - |fraction|)
  }

  predicate RoundsUp(fraction: string, k: nat) {
    |fraction| > k && fraction[k] >= '5'
  }

  /** `integer.fraction` in units of the `k`-th decimal place, as the first dropped digit says. */
  function Rounded(integer: string, fraction: string, k: nat): nat
    requires AllDigits(integer) && AllDigits(fraction)
  {
    Value(integer) * Pow10(k) + Value(Filled(fraction, k)) + if RoundsUp(fraction, k) then 1 else 0
  }

  /** `r` is `n / p` rounded to the nearest whole, ties upwards. */
  predicate IsHalfUp(r: int, n: int, p: int) {
    2 * (r * p) <= 2 * n + p < 2 * (r * p) + 2 * p
  }

  lemma {:induction false} Pow10Split(a: nat, b: nat)
    ensures Pow10(a + b) == Pow10(a) * Pow10(b)
  {
    if a > 0 {
      Pow10Split(a - 1, b);
      Distribute(Pow10(a - 1), 0, Pow10(b));
    }
  }

  /** Looking at one dropped digit rounds the whole decimal half up: with `l` fraction
      digits, the decimal is `Value(integer + fraction) / 10^l`. */
  lemma RoundedIsHalfUp(integer: string, fraction: string, k: nat)
    requires AllDigits(integer) && AllDigits(fraction)
    ensures AllDigits(integer + fraction)
    ensures |fraction| <= k ==>
              Rounded(integer, fraction, k) == Value(integer + fraction) * Pow10(k - |fraction|)
    ensures |fraction| > k ==>
              IsHalfUp(Rounded(integer, fraction, k), Value(integer + fraction), Pow10(|fraction| - k))
  {
    ValueConcat(integer, fraction);
    if |fraction| <= k {
      RoundedShort(integer, fraction, k);
    } else {
      RoundedLong(integer, fraction, k);
    }
  }

  lemma RoundedShort(integer: string, fraction: string, k: nat)
    requires AllDigits(integer) && AllDigits(fraction) && |fraction| <= k
    ensures AllDigits(integer + fraction)
    ensures Rounded(integer, fraction, k) == Value(integer + fraction) * Pow10(k - |fraction|)
  {
    var more := k - |fraction|;
    ValueConcat(integer, fraction);
    ValueTrailingZeros(integer + fraction, more);
    ValueConcat(integer, Filled(fraction, k));
    hide Value, Pow10, AllDigits;
    assert integer + fraction + Zeros(more) == integer + Filled(fraction, k);
  }

  lemma ValueTrailingZeros(s: string, n: nat)
    requires AllDigits(s)
    ensures AllDigits(s + Zeros(n)) && Value(s + Zeros(n)) == Value(s) * Pow10(n)
  {
    ValueConcat(s, Zeros(n));
    ValueZeros(n);
  }

  lemma RoundedLong(integer: string, fraction: string, k: nat)
    requires AllDigits(integer) && AllDigits(fraction) && |fraction| > k
    ensures AllDigits(integer + fraction)
    ensures IsHalfUp(Rounded(integer, fraction, k), Value(integer + fraction), Pow10(|fraction| - k))
  {
    var kept, dropped := integer + fraction[..k], fraction[k..];
    var p := Pow10(|dropped|);
    ValueConcat(integer, fraction[..k]);
    ValueConcat(kept, dropped);
    assert kept + dropped == integer + fraction;
    var first, rest := dropped[..1], dropped[1..];
    assert dropped == first + rest;
    ValueConcat(first, rest);
    ValueBelow(rest);
    assert first[..0] == "";
    var d, q := DigitValue(fraction[k]), Pow10(|rest|);
    assert Value(first) == d;
    assert Value(dropped) == d * q + Value(rest) && p == 10 * q;
    HalfDigit(Value(kept), d, q, Value(rest));
  }

  lemma HalfDigit(kept: nat, d: nat, q: nat, rest: nat)
    requires d < 10 && rest < q
    ensures IsHalfUp(kept + if d >= 5 then 1 else 0, kept * (10 * q) + (d * q + rest), 10 * q)
  {
    var up := if d >= 5 then 1 else 0;
    assert (kept + up) * (10 * q) == kept * (10 * q) + up * (10 * q);
    if d >= 5 {
      assert d * q >= 5 * q;
      assert d * q <= 9 * q;
    } else {
      assert d * q <= 4 * q;
    }
  }
}
