/** Fixed-point amounts as text. A scale is given by its number of decimal places. */
module MoneyText {
  import opened Options
  import opened Decimal

  const MAX64 := 0x7fff_ffff_ffff_ffff

  function Abs(v: int): nat {
    if v < 0 then -v else v
  }

  // ---------- Printing ----------

  function SignedText(v: int): string {
    if v < 0 then "-" + Text(-v) else Text(v)
  }

  /** The digits that are still to be printed; none for zero. */
  function LeadingText(value: nat): string {
    if value > 0 then Text(value) else ""
  }

  lemma PrintOne(value: nat, text: string)
    requires value > 0
    ensures LeadingText(value / 10) + ([DigitChar(value % 10)] + text) == LeadingText(value) + text
  {
    if value >= 10 {
      assert Text(value) == Text(value / 10) + [DigitChar(value % 10)];
    }
  }

  method WideToString(v: int) returns (text: string)
    ensures text == SignedText(v)
  {
    if v == 0 {
      return "0";
    }
    var value: nat := Abs(v);
    text := "";
    ghost var goal := Text(Abs(v));
    assert LeadingText(value) + text == goal;
    while value > 0
      invariant LeadingText(value) + text == goal
    {
      PrintOne(value, text);
      text := [DigitChar(value % 10)] + text;
      value := value / 10;
    }
    assert "" + text == text;
    if v < 0 {
      text := "-" + text;
    }
  }

  /** Digits with at least one before the last `k`. */
  function Padded(n: nat, k: nat): (s: string)
    ensures AllDigits(s) && |s| > k
  {
    PadLeft(Text(n), k)
  }

  function PadLeft(digits: string, k: nat): (s: string)
    requires AllDigits(digits)
    ensures AllDigits(s) && |s| > k
  {
    if |digits| <= k then Zeros(k + 1 - |digits|) + digits else digits
  }

  function Chopped(s: string, c: char): string {
    if s != "" && s[|s| - 1] == c then Chopped(s[..|s| - 1], c) else s
  }

  function Whole(n: nat, k: nat): (s: string)
    ensures AllDigits(s) && s != ""
  {
    Padded(n, k)[..|Padded(n, k)| - k]
  }

  function Fraction(n: nat, k: nat): (s: string)
    ensures AllDigits(s) && |s| == k
  {
    Padded(n, k)[|Padded(n, k)| - k..]
  }

  function WithFraction(whole: string, fraction: string): string {
    if fraction == "" then whole else whole + "." + fraction
  }

  function UnsignedText(n: nat, k: nat): string {
    WithFraction(Whole(n, k), Chopped(Fraction(n, k), '0'))
  }

  /** The shortest decimal text of `v` units of the `k`-th decimal place. */
  function ScaledText(v: int, k: nat): string {
    (if v < 0 then "-" else "") + UnsignedText(Abs(v), k)
  }

  /** Chopping zeros after a point stops at the point or before it. */
  lemma {:induction false} ChopAfterPoint(whole: string, fraction: string)
    ensures Chopped(whole + "." + fraction, '0') == whole + "." + Chopped(fraction, '0')
  {
    if fraction == "" {
      assert whole + "." + fraction == whole + ".";
    } else if fraction[|fraction| - 1] == '0' {
      var s := whole + "." + fraction;
      assert s[..|s| - 1] == whole + "." + fraction[..|fraction| - 1];
      ChopAfterPoint(whole, fraction[..|fraction| - 1]);
    }
  }

  /** Chops trailing zeros, and then a trailing point. */
  method ChopZeros(whole: string, fraction: string) returns (text: string)
    requires AllDigits(fraction)
    ensures text == WithFraction(whole, Chopped(fraction, '0'))
  {
    text := whole + "." + fraction;
    ChopAfterPoint(whole, fraction);
    ghost var goal := Chopped(text, '0');
    while text != "" && text[|text| - 1] == '0'
      invariant Chopped(text, '0') == goal
      decreases |text|
    {
      text := text[..|text| - 1];
    }
    assert text == whole + "." + Chopped(fraction, '0');
    PointOnlyWithoutFraction(whole, fraction);
    if text[|text| - 1] == '.' {
      text := text[..|text| - 1];
    }
  }

  method ScaledToText(v: int, k: nat) returns (text: string)
    ensures text == ScaledText(v, k)
  {
    var padded := WideToString(Abs(v));
    if |padded| <= k {
      padded := Zeros(k + 1 - |padded|) + padded;
    }
    assert padded == Padded(Abs(v), k);
    var split := |padded| - k;
    text := ChopZeros(padded[..split], padded[split..]);
    if v < 0 {
      text := "-" + text;
    }
  }

  lemma {:induction false} ChoppedDigits(s: string)
    requires AllDigits(s)
    ensures AllDigits(Chopped(s, '0')) && |Chopped(s, '0')| <= |s|
    ensures Chopped(s, '0') + Zeros(|s| - |Chopped(s, '0')|) == s
  {
    if s != "" && s[|s| - 1] == '0' {
      ChoppedDigits(s[..|s| - 1]);
      assert s == s[..|s| - 1] + "0";
    }
  }

  lemma PointOnlyWithoutFraction(whole: string, fraction: string)
    requires AllDigits(fraction)
    ensures
      var s := whole + "." + Chopped(fraction, '0');
      if s[|s| - 1] == '.' then s[..|s| - 1] == WithFraction(whole, Chopped(fraction, '0'))
      else s == WithFraction(whole, Chopped(fraction, '0'))
  {
    ChoppedDigits(fraction);
    var f := Chopped(fraction, '0');
    var s := whole + "." + f;
    if f != "" {
      assert s[|s| - 1] == f[|f| - 1];
    }
  }

  // ---------- Parsing ----------

  function PointFrom(s: string, from: nat): (i: nat)
    requires from <= |s|
    ensures from <= i <= |s| && (i < |s| ==> s[i] == '.')
    ensures forall j :: from <= j < i ==> s[j] != '.'
    decreases |s| - from
  {
    if from == |s| || s[from] == '.' then from else PointFrom(s, from + 1)
  }

  function PointIndex(s: string): nat {
    PointFrom(s, 0)
  }

  /** The magnitude of an unsigned text; a second point, a missing integer without a point,
      a strange character or an integer beyond 64 bits is refused. */
  function ParseUnsigned(s: string, k: nat): Option<nat> {
    var i := PointIndex(s);
    var fraction := if i < |s| then s[i + 1..] else "";
    var integer := if i == 0 then "0" else s[..i];
    if s == "" || !AllDigits(integer) || !AllDigits(fraction) || Value(integer) > MAX64 then None
    else Some(Rounded(integer, fraction, k))
  }

  datatype Signed = Signed(negative: bool, rest: string)

  function StripSign(text: string): Signed {
    if text != "" && (text[0] == '+' || text[0] == '-') then Signed(text[0] == '-', text[1..]) else Signed(false, text)
  }

  function WithSign(negative: bool, n: Option<nat>): Option<int> {
    match n
    case None => None
    case Some(n) => Some(if negative then -(n as int) else n as int)
  }

  function ParseScaled(text: string, k: nat): Option<int> {
    WithSign(StripSign(text).negative, ParseUnsigned(StripSign(text).rest, k))
  }

  /** The integer and fraction texts around the first point. */
  method CutAtPoint(s: string) returns (integer: string, fraction: string)
    ensures integer == if PointIndex(s) == 0 then "0" else s[..PointIndex(s)]
    ensures fraction == if PointIndex(s) < |s| then s[PointIndex(s) + 1..] else ""
  {
    var i := 0;
    while i < |s| && s[i] != '.'
      invariant i <= |s| && forall j :: 0 <= j < i ==> s[j] != '.'
    {
      i := i + 1;
    }
    assert i == PointIndex(s);
    integer := if i == 0 then "0" else s[..i];
    fraction := if i < |s| then s[i + 1..] else "";
  }

  /** Truncates the fraction to one digit more than needed and rounds by that digit. */
  method RoundAt(integer: string, fraction: string, k: nat) returns (value: nat)
    requires AllDigits(integer) && AllDigits(fraction)
    ensures value == Rounded(integer, fraction, k)
  {
    var f := fraction;
    if |f| > k + 1 {
      f := f[..k + 1];
    }
    var roundUp := |f| > k && f[k] >= '5';
    if |f| > k {
      f := f[..k];
    }
    f := f + Zeros(k - |f|);
    assert f == Filled(fraction, k);
    value := Value(integer) * Pow10(k) + Value(f);
    if roundUp {
      value := value + 1;
    }
  }

  /** The parser step by step: cut at the point, check, round. */
  method ParseUnsignedText(s: string, k: nat) returns (result: Option<nat>)
    ensures result == ParseUnsigned(s, k)
  {
    var integer, fraction := CutAtPoint(s);
    if s == "" || !AllDigits(integer) || !AllDigits(fraction) || Value(integer) > MAX64 {
      return None;
    }
    var value := RoundAt(integer, fraction, k);
    result := Some(value);
  }

  method ParseScaledText(text: string, k: nat) returns (result: Option<int>)
    ensures result == ParseScaled(text, k)
  {
    var negative, rest := false, text;
    if text != "" && (text[0] == '+' || text[0] == '-') {
      negative := text[0] == '-';
      rest := text[1..];
    }
    var n := ParseUnsignedText(rest, k);
    result := WithSign(negative, n);
  }

  // ---------- Round trip ----------

  lemma PaddedValue(n: nat, k: nat)
    ensures Value(Padded(n, k)) == n
  {
    TextValue(n);
    PadLeftValue(Text(n), k);
  }

  lemma PadLeftValue(digits: string, k: nat)
    requires AllDigits(digits)
    ensures Value(PadLeft(digits, k)) == Value(digits)
  {
    if |digits| <= k {
      ValueLeadingZeros(k + 1 - |digits|, digits);
    }
  }

  lemma PartsOf(n: nat, k: nat)
    ensures Value(Whole(n, k)) * Pow10(k) + Value(Fraction(n, k)) == n
    ensures Value(Fraction(n, k)) < Pow10(k)
  {
    var whole, fraction := Whole(n, k), Fraction(n, k);
    PaddedValue(n, k);
    assert Padded(n, k) == whole + fraction;
    ValueConcat(whole, fraction);
    ValueBelow(fraction);
  }

  lemma WholeIsQuotient(n: nat, k: nat)
    ensures Value(Whole(n, k)) == n / Pow10(k)
  {
    PartsOf(n, k);
    QuotientUnique(n, Pow10(k), Value(Whole(n, k)), Value(Fraction(n, k)));
  }

  lemma QuotientUnique(n: nat, p: nat, q: nat, r: nat)
    requires p > 0 && r < p && n == q * p + r
    ensures n / p == q
  {
    var x := q - n / p;
    assert x * p == q * p - (n / p) * p;
    MultipleGrows(x, p);
  }

  lemma MultipleGrows(x: int, p: nat)
    requires p > 0
    ensures x >= 1 ==> x * p >= p
    ensures x <= -1 ==> x * p + p <= 0
  {}

  lemma PointAfterDigits(whole: string, f: string)
    requires AllDigits(whole)
    ensures PointIndex(WithFraction(whole, f)) == |whole|
  {
    var s := WithFraction(whole, f);
    assert forall j :: 0 <= j < |whole| ==> s[j] == whole[j];
    assert f != "" ==> s[|whole|] == '.';
  }

  lemma ParseParts(whole: string, f: string, k: nat)
    requires AllDigits(whole) && whole != "" && AllDigits(f)
    ensures ParseUnsigned(WithFraction(whole, f), k)
            == if Value(whole) <= MAX64 then Some(Rounded(whole, f, k)) else None
  {
    var s := WithFraction(whole, f);
    PointAfterDigits(whole, f);
    assert s[..|whole|] == whole;
    if f != "" {
      assert s[|whole| + 1..] == f;
    }
  }

  lemma RoundedPartsOf(n: nat, k: nat)
    ensures AllDigits(Chopped(Fraction(n, k), '0'))
    ensures Rounded(Whole(n, k), Chopped(Fraction(n, k), '0'), k) == n
  {
    var f := Chopped(Fraction(n, k), '0');
    ChoppedDigits(Fraction(n, k));
    PartsOf(n, k);
    assert Filled(f, k) == Fraction(n, k);
  }

  lemma StripsOwnSign(body: string, negative: bool)
    requires body != "" && IsDigit(body[0])
    ensures StripSign((if negative then "-" else "") + body) == Signed(negative, body)
  {
    var text := (if negative then "-" else "") + body;
    assert text[|text| - |body|..] == body;
    assert body[0] as int >= 48 && '-' as int == 45 && '+' as int == 43;
  }

  lemma ParseSigned(body: string, negative: bool, k: nat)
    requires body != "" && IsDigit(body[0])
    ensures ParseScaled((if negative then "-" else "") + body, k) == WithSign(negative, ParseUnsigned(body, k))
  {
    StripsOwnSign(body, negative);
  }

  lemma ParseUnsignedPrinted(n: nat, k: nat)
    ensures ParseUnsigned(UnsignedText(n, k), k) == if Value(Whole(n, k)) <= MAX64 then Some(n) else None
  {
    RoundedPartsOf(n, k);
    ParseParts(Whole(n, k), Chopped(Fraction(n, k), '0'), k);
  }

  lemma StartsWithDigit(n: nat, k: nat)
    ensures UnsignedText(n, k) != "" && IsDigit(UnsignedText(n, k)[0])
  {
    assert UnsignedText(n, k)[0] == Whole(n, k)[0];
  }

  /** Parsing undoes printing exactly for amounts whose whole part fits 64 bits; larger
      ones are refused. */
  lemma ParseUndoesPrint(v: int, k: nat)
    ensures ParseScaled(ScaledText(v, k), k) == if Abs(v) / Pow10(k) <= MAX64 then Some(v) else None
  {
    ParseUnsignedPrinted(Abs(v), k);
    StartsWithDigit(Abs(v), k);
    ParseSigned(UnsignedText(Abs(v), k), v < 0, k);
    WholeIsQuotient(Abs(v), k);
  }

  // ---------- Which texts are amounts ----------

  /** At most one sign, then `rest`. */
  predicate IsSigned(text: string, negative: bool, rest: string) {
    if negative then text == "-" + rest else text == rest || text == "+" + rest
  }

  /** Digits, or digits around a point; either part may then be missing. */
  predicate IsDecimal(rest: string, integer: string, fraction: string) {
    && AllDigits(integer) && AllDigits(fraction)
    && (rest == integer + "." + fraction || (rest == integer && integer != "" && fraction == ""))
  }

  lemma DecimalIsUnsigned(rest: string, integer: string, fraction: string, k: nat)
    requires IsDecimal(rest, integer, fraction)
    ensures ParseUnsigned(rest, k) == if Value(integer) <= MAX64 then Some(Rounded(integer, fraction, k)) else None
  {
    assert forall j :: 0 <= j < |integer| ==> rest[j] == integer[j];
    assert rest[..|integer|] == integer;
    if |rest| > |integer| {
      assert rest[|integer|] == '.' && rest[|integer| + 1..] == fraction;
    }
    assert PointIndex(rest) == |integer|;
    if integer == "" {
      assert "0"[..0] == "" && Value("0") == 0;
    }
  }

  lemma SignIsStripped(text: string, negative: bool, rest: string)
    requires IsSigned(text, negative, rest) && rest != "" && rest[0] != '+' && rest[0] != '-'
    ensures StripSign(text) == Signed(negative, rest)
  {
    assert text != "";
    if text != rest {
      assert text[1..] == rest;
    }
  }

  /** A decimal text is rounded half away from zero at its k-th decimal (`RoundedIsHalfUp`), and
      refused exactly when its integer part does not fit 63 bits. */
  lemma DecimalIsParsed(text: string, negative: bool, rest: string, integer: string, fraction: string, k: nat)
    requires IsSigned(text, negative, rest) && IsDecimal(rest, integer, fraction)
    ensures ParseScaled(text, k) ==
              if Value(integer) > 9_223_372_036_854_775_807 then None
              else Some(if negative then -(Rounded(integer, fraction, k) as int) else Rounded(integer, fraction, k) as int)
  {
    hide IsSigned, ParseUnsigned, StripSign, Rounded, Value, AllDigits;
    DecimalIsUnsigned(rest, integer, fraction, k);
    DecimalStartsPlain(rest, integer, fraction);
    SignIsStripped(text, negative, rest);
  }

  lemma DecimalStartsPlain(rest: string, integer: string, fraction: string)
    requires IsDecimal(rest, integer, fraction)
    ensures rest != "" && rest[0] != '+' && rest[0] != '-'
  {
    if integer != "" {
      assert rest[0] == integer[0] && IsDigit(integer[0]);
    } else {
      assert rest[0] == '.';
    }
  }

  /** Any other text is refused. */
  lemma OnlyDecimals(text: string, k: nat)
    requires ParseScaled(text, k).Some?
    ensures exists negative, rest, integer, fraction :: IsSigned(text, negative, rest) && IsDecimal(rest, integer, fraction)
  {
    SignComesFirst(text);
    hide StripSign, IsSigned, Rounded;
    var integer, fraction := UnsignedIsDecimal(StripSign(text).rest, k);
  }

  lemma SignComesFirst(text: string)
    ensures IsSigned(text, StripSign(text).negative, StripSign(text).rest)
  {
    if text != "" && (text[0] == '+' || text[0] == '-') {
      assert text == [text[0]] + text[1..];
    }
  }

  lemma UnsignedIsDecimal(rest: string, k: nat) returns (integer: string, fraction: string)
    requires ParseUnsigned(rest, k).Some?
    ensures IsDecimal(rest, integer, fraction)
  {
    hide Rounded;
    var i := PointIndex(rest);
    integer, fraction := rest[..i], if i < |rest| then rest[i + 1..] else "";
    if i < |rest| {
      assert rest == integer + "." + fraction;
    } else {
      assert rest == integer;
    }
  }
}
