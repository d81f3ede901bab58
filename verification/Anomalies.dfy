/** Unusual days of a spending series: at least one unit, half the mean, and two population
    standard deviations above the mean. Arithmetic is exact. */
module Anomalies {
  import opened Options

  const MINIMUM_DAYS := 7

  datatype Day = Day(date: string, value: real)

  function SumBy(days: seq<Day>, f: real -> real): real {
    if days == [] then 0.0 else SumBy(days[..|days| - 1], f) + f(days[|days| - 1].value)
  }

  function Itself(): real -> real {
    v => v
  }

  function SquareFrom(centre: real): real -> real {
    v => (v - centre) * (v - centre)
  }

  function Mean(days: seq<Day>): real
    requires days != []
  {
    SumBy(days, Itself()) / |days| as real
  }

  function Variance(days: seq<Day>): real
    requires days != []
  {
    SumBy(days, SquareFrom(Mean(days))) / |days| as real
  }

  function AbsoluteThreshold(mean: real): real {
    var half := (if mean < 0.0 then -mean else mean) * 0.5;
    if half > 1.0 then half else 1.0
  }

  predicate IsAnomaly(value: real, mean: real, deviation: real) {
    value - mean >= AbsoluteThreshold(mean) && value >= mean + 2.0 * deviation
  }

  function Anomalous(days: seq<Day>, mean: real, deviation: real): seq<Day> {
    if days == [] then []
    else
      var earlier, last := Anomalous(days[..|days| - 1], mean, deviation), days[|days| - 1];
      if IsAnomaly(last.value, mean, deviation) then earlier + [last] else earlier
  }

  /** An exact square root. */
  ghost predicate IsRoot(root: real -> real) {
    forall x :: x >= 0.0 ==> root(x) >= 0.0 && root(x) * root(x) == x
  }

  // ---------- What is reported ----------

  /** One unit, half the size of the mean and two deviations above the mean. */
  ghost predicate StandsOut(value: real, mean: real, deviation: real) {
    var above := value - mean;
    above >= 1.0 && 2.0 * above >= mean && 2.0 * above >= -mean && above >= 2.0 * deviation
  }

  /** `found` lists the days that stand out, each where it stands among `days`. */
  ghost predicate ListsThem(places: seq<int>, found: seq<Day>, days: seq<Day>, mean: real, deviation: real) {
    && |places| == |found|
    && (forall i, j :: 0 <= i < j < |places| ==> places[i] < places[j])
    && (forall i :: 0 <= i < |places| ==> 0 <= places[i] < |days| && found[i] == days[places[i]])
    && (forall k :: 0 <= k < |days| ==> (StandsOut(days[k].value, mean, deviation) <==> k in places))
  }

  lemma OneMoreListed(places: seq<int>, found: seq<Day>, init: seq<Day>, last: Day, mean: real, deviation: real)
    requires ListsThem(places, found, init, mean, deviation)
    ensures
      if StandsOut(last.value, mean, deviation)
      then ListsThem(places + [|init|], found + [last], init + [last], mean, deviation)
      else ListsThem(places, found, init + [last], mean, deviation)
  {
    hide StandsOut;
    var days := init + [last];
    assert forall k :: 0 <= k < |init| ==> days[k] == init[k];
  }

  /** The anomalies are exactly the days that stand out, in order. */
  lemma {:induction false} AnomaliesStandOut(days: seq<Day>, mean: real, deviation: real) returns (places: seq<int>)
    ensures ListsThem(places, Anomalous(days, mean, deviation), days, mean, deviation)
  {
    places := [];
    if days != [] {
      hide ListsThem;
      var init, last := days[..|days| - 1], days[|days| - 1];
      assert days == init + [last];
      places := AnomaliesStandOut(init, mean, deviation);
      OneMoreListed(places, Anomalous(init, mean, deviation), init, last, mean, deviation);
      if IsAnomaly(last.value, mean, deviation) {
        places := places + [|init|];
      }
    }
  }

  /** The mean of the days and the root of their mean squared distance from it. */
  ghost predicate HasSpread(days: seq<Day>, mean: real, deviation: real) {
    && mean * |days| as real == SumBy(days, Itself())
    && deviation >= 0.0 && deviation * deviation * |days| as real == SumBy(days, SquareFrom(mean))
  }

  ghost predicate IsAnswer(found: seq<Day>, days: seq<Day>, mean: real, deviation: real) {
    HasSpread(days, mean, deviation) && exists places :: ListsThem(places, found, days, mean, deviation)
  }

  lemma AnswerFits(days: seq<Day>, root: real -> real)
    requires days != [] && IsRoot(root) && Variance(days) >= 0.0
    ensures IsAnswer(Anomalous(days, Mean(days), root(Variance(days))), days, Mean(days), root(Variance(days)))
  {
    var places := AnomaliesStandOut(days, Mean(days), root(Variance(days)));
    hide Anomalous, SumBy, ListsThem;
    var n := |days| as real;
    TimesBack(SumBy(days, Itself()), n);
    TimesBack(SumBy(days, SquareFrom(Mean(days))), n);
  }

  lemma TimesBack(x: real, n: real)
    requires n > 0.0
    ensures x / n * n == x
  {}

  // ---------- The three passes ----------

  method SumUp(days: seq<Day>) returns (total: real)
    ensures total == SumBy(days, Itself())
  {
    total := 0.0;
    for i := 0 to |days|
      invariant total == SumBy(days[..i], Itself())
    {
      assert days[..i + 1][..i] == days[..i];
      total := total + days[i].value;
    }
    assert days[..|days|] == days;
  }

  method SumSquares(days: seq<Day>, mean: real) returns (total: real)
    ensures total == SumBy(days, SquareFrom(mean))
  {
    total := 0.0;
    for i := 0 to |days|
      invariant total == SumBy(days[..i], SquareFrom(mean))
    {
      assert days[..i + 1][..i] == days[..i];
      var delta := days[i].value - mean;
      total := total + delta * delta;
    }
    assert days[..|days|] == days;
  }

  method Select(days: seq<Day>, mean: real, deviation: real) returns (anomalies: seq<Day>)
    ensures anomalies == Anomalous(days, mean, deviation)
  {
    anomalies := [];
    for i := 0 to |days|
      invariant anomalies == Anomalous(days[..i], mean, deviation)
    {
      assert days[..i + 1][..i] == days[..i];
      if days[i].value - mean < AbsoluteThreshold(mean) || days[i].value < mean + 2.0 * deviation {
        continue;
      }
      anomalies := anomalies + [days[i]];
    }
    assert days[..|days|] == days;
  }

  /** Mean, deviation and selection; no answer for fewer than seven days. */
  method FindAnomalies(days: seq<Day>, root: real -> real) returns (found: Option<seq<Day>>)
    requires IsRoot(root)
    ensures found.None? <==> |days| < 7
    ensures found.Some? ==>
              && (exists mean, deviation :: IsAnswer(found.value, days, mean, deviation))
              && 5 * |found.value| <= |days|
  {
    if |days| < MINIMUM_DAYS {
      return None;
    }
    var total := SumUp(days);
    var mean := total / |days| as real;
    var squares := SumSquares(days, mean);
    var deviation := root(squares / |days| as real);
    var anomalies := Select(days, mean, deviation);
    VarianceIsNotNegative(days);
    AtMostAFifth(days, deviation);
    AnswerFits(days, root);
    found := Some(anomalies);
  }

  // ---------- Sums ----------

  ghost predicate NotNegative(f: real -> real) {
    forall v :: f(v) >= 0.0
  }

  ghost predicate Weighs(f: real -> real, mean: real, deviation: real, low: real) {
    forall v :: IsAnomaly(v, mean, deviation) ==> f(v) >= low
  }

  ghost predicate Splits(whole: real -> real, a: real -> real, b: real -> real, c: real) {
    forall v :: whole(v) == a(v) + b(v) + c
  }

  lemma {:induction false} SumScaled(days: seq<Day>, c: real, f: real -> real, g: real -> real)
    requires forall v :: g(v) == c * f(v)
    ensures SumBy(days, g) == c * SumBy(days, f)
  {
    if days != [] {
      SumScaled(days[..|days| - 1], c, f, g);
      Distribute(c, SumBy(days[..|days| - 1], f), f(days[|days| - 1].value));
    }
  }

  lemma {:induction false} SumSplits(days: seq<Day>, whole: real -> real, a: real -> real, b: real -> real, c: real)
    requires Splits(whole, a, b, c)
    ensures SumBy(days, whole) == SumBy(days, a) + SumBy(days, b) + |days| as real * c
  {
    if days != [] {
      SumSplits(days[..|days| - 1], whole, a, b, c);
      OneMore((|days| - 1) as real, c);
    }
  }

  function Nothing(): real -> real {
    v => 0.0
  }

  lemma {:induction false} SumNothing(days: seq<Day>)
    ensures SumBy(days, Nothing()) == 0.0
  {
    if days != [] {
      SumNothing(days[..|days| - 1]);
    }
  }

  lemma {:induction false} SumNotNegative(days: seq<Day>, f: real -> real)
    requires NotNegative(f)
    ensures SumBy(days, f) >= 0.0
  {
    if days != [] {
      SumNotNegative(days[..|days| - 1], f);
    }
  }

  /** Every anomaly weighs at least `low`, every other day at least nothing. */
  lemma {:induction false} AnomaliesWeigh(days: seq<Day>, mean: real, deviation: real, f: real -> real, low: real)
    requires NotNegative(f) && Weighs(f, mean, deviation, low)
    ensures SumBy(days, f) >= |Anomalous(days, mean, deviation)| as real * low
  {
    if days != [] {
      var init := days[..|days| - 1];
      AnomaliesWeigh(init, mean, deviation, f, low);
      OneMore(|Anomalous(init, mean, deviation)| as real, low);
    }
  }

  lemma OneMore(n: real, x: real)
    ensures (n + 1.0) * x == n * x + x
  {}

  lemma Distribute(a: real, x: real, y: real)
    ensures a * (x + y) == a * x + a * y
  {}

  lemma DivideBack(x: real, n: real)
    requires n > 0.0
    ensures n * (x / n) == x
  {}

  lemma SquareIsNotNegative(x: real)
    ensures x * x >= 0.0
  {}

  lemma SquareGrows(x: real, low: real)
    requires x >= low >= 0.0
    ensures x * x >= low * low
  {}

  lemma SquaresFromAreNotNegative(centre: real)
    ensures NotNegative(SquareFrom(centre))
  {
    forall v
      ensures SquareFrom(centre)(v) >= 0.0
    {
      SquareIsNotNegative(v - centre);
    }
  }

  lemma FarSquares(mean: real, deviation: real, centre: real, low: real)
    requires low >= 0.0 && forall v :: IsAnomaly(v, mean, deviation) ==> v - centre >= low
    ensures Weighs(SquareFrom(centre), mean, deviation, low * low)
  {
    forall v | IsAnomaly(v, mean, deviation)
      ensures SquareFrom(centre)(v) >= low * low
    {
      SquareGrows(v - centre, low);
    }
  }

  lemma VarianceIsNotNegative(days: seq<Day>)
    requires days != []
    ensures Variance(days) >= 0.0
  {
    SquaresFromAreNotNegative(Mean(days));
    SumNotNegative(days, SquareFrom(Mean(days)));
  }

  // ---------- Moving the centre ----------

  function DistanceFrom(centre: real): real -> real {
    v => v - centre
  }

  function Scaled(c: real, f: real -> real): real -> real {
    v => c * f(v)
  }

  /** The distances from the mean cancel. */
  lemma DistancesCancel(days: seq<Day>)
    requires days != []
    ensures SumBy(days, DistanceFrom(Mean(days))) == 0.0
  {
    var mean := Mean(days);
    SumSplits(days, Itself(), DistanceFrom(mean), Nothing(), mean);
    SumNothing(days);
    DivideBack(SumBy(days, Itself()), |days| as real);
  }

  lemma MoveSquare(d: real, shift: real)
    ensures (d + shift) * (d + shift) == d * d + 2.0 * shift * d + shift * shift
  {}

  lemma SquaresMove(mean: real, shift: real)
    ensures Splits(SquareFrom(mean - shift), SquareFrom(mean), Scaled(2.0 * shift, DistanceFrom(mean)), shift * shift)
  {
    forall v
      ensures SquareFrom(mean - shift)(v) == SquareFrom(mean)(v) + Scaled(2.0 * shift, DistanceFrom(mean))(v) + shift * shift
    {
      MoveSquare(v - mean, shift);
    }
  }

  /** Squares from a centre below the mean exceed those from the mean by the squared shift. */
  lemma MoveCentre(days: seq<Day>, mean: real, shift: real, extra: real)
    requires days != [] && mean == Mean(days) && extra == shift * shift
    ensures SumBy(days, SquareFrom(mean - shift)) == SumBy(days, SquareFrom(mean)) + |days| as real * extra
  {
    SquaresMove(mean, shift);
    SumSplits(days, SquareFrom(mean - shift), SquareFrom(mean), Scaled(2.0 * shift, DistanceFrom(mean)), extra);
    CrossCancels(days, mean, 2.0 * shift);
  }

  lemma CrossCancels(days: seq<Day>, mean: real, c: real)
    requires days != [] && mean == Mean(days)
    ensures SumBy(days, Scaled(c, DistanceFrom(mean))) == 0.0
  {
    SumScaled(days, c, DistanceFrom(mean), Scaled(c, DistanceFrom(mean)));
    DistancesCancel(days);
  }

  // ---------- At most a fifth of the days ----------

  /** With a zero deviation every day equals the mean, and the absolute threshold holds all of them back. */
  lemma NoneWithoutDeviation(days: seq<Day>)
    requires days != [] && Variance(days) == 0.0
    ensures Anomalous(days, Mean(days), 0.0) == []
  {
    var mean := Mean(days);
    DivideBack(SumBy(days, SquareFrom(mean)), |days| as real);
    SquaresFromAreNotNegative(mean);
    FarSquares(mean, 0.0, mean, 1.0);
    AnomaliesWeigh(days, mean, 0.0, SquareFrom(mean), 1.0);
  }

  lemma CancelFactor(a: real, b: real, x: real)
    requires x > 0.0 && a * x <= b * x
    ensures a <= b
  {}

  lemma CompareWeights(k: real, n: real, x: real, extra: real, weight: real)
    requires x > 0.0 && extra == 0.25 * x && weight == 6.25 * x && k * weight <= n * x + n * extra
    ensures 5.0 * k <= n
  {
    assert k * weight == (6.25 * k) * x;
    assert n * x + n * extra == (1.25 * n) * x;
    CancelFactor(6.25 * k, 1.25 * n, x);
  }

  lemma SquareIsPositive(s: real, x: real)
    requires s > 0.0 && s * s == x
    ensures x > 0.0
  {
    assert x / s == s;
  }

  lemma ScaledSquares(s: real, x: real)
    requires x == s * s
    ensures (2.5 * s) * (2.5 * s) == 6.25 * x && (0.5 * s) * (0.5 * s) == 0.25 * x
  {}

  lemma SquaresFromMean(days: seq<Day>)
    requires days != []
    ensures SumBy(days, SquareFrom(Mean(days))) == |days| as real * Variance(days)
  {
    DivideBack(SumBy(days, SquareFrom(Mean(days))), |days| as real);
  }

  /** Seen from half a deviation below the mean, an anomaly is two and a half deviations away. */
  lemma AnomaliesFromBelow(mean: real, s: real, near: real, weight: real)
    requires s >= 0.0 && near == 0.5 * s && weight == (2.5 * s) * (2.5 * s)
    ensures NotNegative(SquareFrom(mean - near)) && Weighs(SquareFrom(mean - near), mean, s, weight)
  {
    SquaresFromAreNotNegative(mean - near);
    FarSquares(mean, s, mean - near, 2.5 * s);
  }

  lemma FewFarDays(days: seq<Day>, mean: real, s: real, f: real -> real, x: real, extra: real, weight: real)
    requires NotNegative(f) && Weighs(f, mean, s, weight)
    requires SumBy(days, f) == |days| as real * x + |days| as real * extra
    requires x > 0.0 && extra == 0.25 * x && weight == 6.25 * x
    ensures 5 * |Anomalous(days, mean, s)| <= |days|
  {
    AnomaliesWeigh(days, mean, s, f, weight);
    CompareWeights(|Anomalous(days, mean, s)| as real, |days| as real, x, extra, weight);
  }

  /** However the costs are spread, at most a fifth of the days are anomalies (Cantelli's
      inequality, one-sided). */
  lemma AtMostAFifth(days: seq<Day>, deviation: real)
    requires days != [] && deviation >= 0.0 && deviation * deviation == Variance(days)
    ensures 5 * |Anomalous(days, Mean(days), deviation)| <= |days|
  {
    if deviation == 0.0 {
      NoneWithoutDeviation(days);
    } else {
      SquareIsPositive(deviation, Variance(days));
      ScaledSquares(deviation, Variance(days));
      SpreadDays(days, Mean(days), deviation, Variance(days), 0.5 * deviation, 0.25 * Variance(days), 6.25 * Variance(days));
    }
  }

  lemma SpreadDays(days: seq<Day>, mean: real, s: real, x: real, near: real, extra: real, weight: real)
    requires days != [] && mean == Mean(days) && x == Variance(days) && x > 0.0 && s >= 0.0
    requires near == 0.5 * s && near * near == extra && (2.5 * s) * (2.5 * s) == weight
    requires extra == 0.25 * x && weight == 6.25 * x
    ensures 5 * |Anomalous(days, mean, s)| <= |days|
  {
    SquaresFromMean(days);
    MoveCentre(days, mean, near, extra);
    AnomaliesFromBelow(mean, s, near, weight);
    FewFarDays(days, mean, s, SquareFrom(mean - near), x, extra, weight);
  }

  // ---------- The bound is reached ----------

  /** Eight idle days and two days of ten units. */
  lemma AFifthIsReached()
    ensures
      var idle, busy := Day("", 0.0), Day("", 10.0);
      var days := [idle, idle, idle, idle, idle, idle, idle, idle, busy, busy];
      Mean(days) == 2.0 && Variance(days) == 16.0 && Anomalous(days, 2.0, 4.0) == [busy, busy]
  {
    var idle, busy := Day("", 0.0), Day("", 10.0);
    var eight := [idle, idle, idle, idle, idle, idle, idle, idle];
    var nine, days := eight + [busy], eight + [busy, busy];
    EqualDays(eight, Itself(), 0.0, 2.0, 4.0);
    EqualDays(eight, SquareFrom(2.0), 0.0, 2.0, 4.0);
    assert days == [idle, idle, idle, idle, idle, idle, idle, idle, busy, busy];
    assert nine[..8] == eight && days[..9] == nine;
    assert SumBy(nine, Itself()) == 10.0 && SumBy(days, Itself()) == 20.0;
    assert SumBy(nine, SquareFrom(2.0)) == 96.0 && SumBy(days, SquareFrom(2.0)) == 160.0;
    assert Anomalous(nine, 2.0, 4.0) == [busy];
    assert Anomalous(days, 2.0, 4.0) == [busy, busy];
  }

  lemma {:induction false} EqualDays(days: seq<Day>, f: real -> real, value: real, mean: real, deviation: real)
    requires forall i :: 0 <= i < |days| ==> days[i].value == value
    requires !IsAnomaly(value, mean, deviation)
    ensures SumBy(days, f) == |days| as real * f(value)
    ensures Anomalous(days, mean, deviation) == []
  {
    if days != [] {
      EqualDays(days[..|days| - 1], f, value, mean, deviation);
      OneMore((|days| - 1) as real, f(value));
    }
  }
}
