/** What the figures of an available pacing result say about the observations themselves. */
module PacingNumbers {
  import opened Options
  import opened BillingCycle
  import opened BudgetPacing
  import opened DailyBaseline
  import opened Observations
  import opened Sums
  import Calendar
  import Contract = ForecastContract
  import Decimal

  type Request = BudgetPacing.Request

  // ---------- Which observations are kept ----------

  ghost predicate IsOfScope(s: Scope, o: Observation) {
    if s.mode == "aggregate" then o.scopeKind == o.scopeIdentity == ""
    else o.scopeKind == s.kind && o.scopeIdentity == s.identity
  }

  /** Of every interval observed in the scope, and of no other, an observation that none came after. */
  ghost predicate KeepsLatest(s: Scope, observations: seq<Observation>, m: ByInterval) {
    && (forall k :: k in m ==> m[k] in observations && IsOfScope(s, m[k]) && k == Interval(m[k].start, m[k].end))
    && (forall o :: o in observations && IsOfScope(s, o) ==>
          Interval(o.start, o.end) in m && m[Interval(o.start, o.end)].observedAt >= o.observedAt)
  }

  lemma LatestAreKept(s: Scope, observations: seq<Observation>)
    ensures KeepsLatest(s, observations, Latest(s, observations))
  {
    var m := Latest(s, observations);
    forall k | k in m
      ensures m[k] in observations && IsOfScope(s, m[k]) && k == Interval(m[k].start, m[k].end)
    {
      LatestIsLatest(s, observations, k);
    }
    forall o | o in observations && IsOfScope(s, o)
      ensures Interval(o.start, o.end) in m && m[Interval(o.start, o.end)].observedAt >= o.observedAt
    {
      LatestIsLatest(s, observations, Interval(o.start, o.end));
      assert Competes(s, observations, o, Interval(o.start, o.end));
    }
  }

  // ---------- Sums ----------

  /** The values observed for the intervals that lie within a stretch of time. */
  ghost function Between(m: ByInterval, start: Time, end: Time): map<Interval, int> {
    map k | k in m && start <= k.start < k.end <= end && m[k].valueMinor.Some? :: m[k].valueMinor.value
  }

  lemma WithinIsBetween(m: ByInterval, c: Cycle)
    requires KeyedByInterval(m) && c.Cycle?
    ensures Within(m, c) == Between(m, c.start, c.end)
  {
    assert forall k :: k in m ==> m[k].start == k.start && m[k].end == k.end;
  }

  /** The spend is the sum within the cycle, the previous spend that within the previous cycle. */
  lemma SpendIsSum(r: Request, m: ByInterval)
    requires IsPaceable(r, m)
    ensures
      var n := ResultOf(r, FiguresOf(r, m)).numbers.value;
      var p := r.previousCycle;
      && Between(m, r.cycle.start, r.cycle.end) != map[]
      && n.spentMinor == Total(Between(m, r.cycle.start, r.cycle.end))
      && (n.previousSpentMinor.Some? <==> p.Cycle? && p.start < p.end && Between(m, p.start, p.end) != map[])
      && (n.previousSpentMinor.Some? ==> n.previousSpentMinor.value == Total(Between(m, p.start, p.end)))
  {
    hide Within, Between, DoubledMedian, Days, Coverage, Suffices, Total, Projected, SafeToday, DailyAllowance, Percent;
    WithinIsBetween(m, r.cycle);
    if r.previousCycle.Cycle? {
      WithinIsBetween(m, r.previousCycle);
    }
  }

  /** The percentages relate the spend to the limit and to the previous spend. */
  lemma PercentagesAreShares(r: Request, f: Figures)
    requires IsReady(r)
    ensures
      var n := ResultOf(r, f).numbers.value;
      && n.consumedPercent * r.limitMinor as real == 100.0 * n.spentMinor as real
      && (n.previousChangePercent.Some? <==> n.previousSpentMinor.Some? && n.previousSpentMinor.value > 0)
      && (n.previousChangePercent.Some? ==>
            n.previousChangePercent.value * n.previousSpentMinor.value as real
            == 100.0 * (n.spentMinor - n.previousSpentMinor.value) as real)
  {
    hide Projected, SafeToday, DailyAllowance;
    ShareTimesWhole(f.spent as real, r.limitMinor as real);
    if f.previous.Some? && f.previous.value > 0 {
      ShareTimesWhole((f.spent - f.previous.value) as real, f.previous.value as real);
    }
  }

  /** The state of a result: what share of the limit is spent, a billionth of a percent aside. */
  lemma StateFollowsSpend(r: Request, f: Figures)
    requires IsReady(r)
    ensures
      var result := ResultOf(r, f);
      var spent, limit := f.spent as real, r.limitMinor as real;
      var isCritical := 100.0 * spent >= (r.criticalPercent as real - 0.000_000_001) * limit;
      var isWarning := 100.0 * spent >= (r.warningPercent as real - 0.000_000_001) * limit;
      && (result.state.Exceeded? <==> spent >= limit)
      && (result.state.Critical? <==> spent < limit && isCritical)
      && (result.state.Warning? <==> spent < limit && !isCritical && (isWarning || result.numbers.value.predictedOverrun))
      && !result.state.Unavailable?
  {
    hide Projected, SafeToday, DailyAllowance, Remaining, PredictedAt;
    PercentFrom(f.spent, r.limitMinor, r.criticalPercent as real - EPSILON);
    PercentFrom(f.spent, r.limitMinor, r.warningPercent as real - EPSILON);
  }

  lemma PercentFrom(spent: int, limit: int, percent: real)
    requires limit > 0
    ensures Percent(spent, limit) >= percent <==> 100.0 * spent as real >= percent * limit as real
  {
    ShareTimesWhole(spent as real, limit as real);
    CompareFactors(Percent(spent, limit), percent, limit as real);
  }

  /** The values shown are the minor amounts in units of the currency. */
  lemma ValuesAreMajor(r: Request, f: Figures)
    requires IsReady(r)
    ensures
      var result := ResultOf(r, f);
      var unit := Decimal.Pow10(r.minorDigits.value) as real;
      && result.currentValue.Some? && result.currentValue.value * unit == f.spent as real
      && result.projectedValue.Some? && result.projectedValue.value * unit == result.numbers.value.projectedMinor as real
      && result.limitValue.Some? && result.limitValue.value * unit == r.limitMinor as real
  {
    hide Projected, SafeToday, DailyAllowance, Remaining, PredictedAt, StateOf;
  }

  lemma ShareTimesWhole(part: real, whole: real)
    requires whole != 0.0
    ensures part / whole * 100.0 * whole == 100.0 * part
  {
    assert part / whole * whole == part;
  }

  // ---------- The baseline ----------

  ghost function DayOf(d: int): Interval {
    Interval(86_400_000 * d, 86_400_000 * (d + 1))
  }

  /** The observed whole days that are over, in increasing order, and the value of each. */
  ghost predicate AreDays(list: seq<int>, values: seq<int>, m: ByInterval, now: Time) {
    && |list| == |values|
    && (forall i, j :: 0 <= i < j < |list| ==> list[i] < list[j])
    && (forall d :: d in list <==> DayOf(d) in m && DayOf(d).end <= now)
    && (forall i :: 0 <= i < |list| ==> DayOf(list[i]) in m && m[DayOf(list[i])].valueMinor == Some(values[i]))
  }

  ghost predicate IsSortedForm(s: seq<int>, values: seq<int>) {
    && |s| == |values| && multiset(s) == multiset(values)
    && forall i, j :: 0 <= i < j < |s| ==> s[i] <= s[j]
  }

  /** Twice the median: the sum of the two in the middle of the sorted values. */
  ghost predicate IsTwiceMedian(twice: int, values: seq<int>) {
    exists s :: IsSortedForm(s, values) && |s| > 0 && twice == s[(|s| - 1) / 2] + s[|s| / 2]
  }

  lemma MedianIsTwice(values: seq<int>)
    requires values != []
    ensures IsTwiceMedian(DoubledMedian(values), values)
  {
    hide DoubledMedian;
    MedianIsMiddle(values, 0);
    assert IsSortedForm(Sorted(values), values);
  }

  lemma DayIsOver(d: int, now: Time)
    ensures DayInterval(d) == DayOf(d)
    ensures DayInterval(d).end <= TodayStart(now) <==> DayOf(d).end <= now
  {
    assert now == now / Calendar.DAY_MS * Calendar.DAY_MS + now % Calendar.DAY_MS;
  }

  lemma BaselineDays(r: Request, m: ByInterval) returns (list: seq<int>)
    requires AllCompatible(r, m)
    ensures ListsDays(list, InOrder(Days(m, TodayStart(r.now))), Days(m, TodayStart(r.now)))
    ensures AreDays(list, InOrder(Days(m, TodayStart(r.now))), m, r.now)
  {
    var days := Days(m, TodayStart(r.now));
    list := InOrderLists(days);
    DayKeysAreIntervals(m, TodayStart(r.now));
    forall d
      ensures d in list <==> DayOf(d) in m && DayOf(d).end <= r.now
      ensures d in list ==> DayOf(d) in m && m[DayOf(d)].valueMinor == Some(days[d])
    {
      DayIsOver(d, r.now);
    }
  }

  /** At least five days, which cover at least 70 percent of those from the first to the last. */
  ghost predicate CoversDays(samples: int, coverage: real, list: seq<int>) {
    && samples == |list| >= 5 && coverage >= 70.0 - 0.000_000_001
    && coverage * (list[|list| - 1] - list[0] + 1) as real == 100.0 * |list| as real
  }

  /** The projection adds the median day for each day that is left, to the nearest whole amount;
      the predicted instant is the last whole millisecond at which it leaves the limit unspent. */
  ghost predicate Projects(r: Request, result: Contract.Result, twice: int)
    requires r.cycle.Cycle? && result.numbers.Some?
  {
    var n := result.numbers.value;
    && Decimal.IsHalfUp(n.projectedMinor, 172_800_000 * n.spentMinor + twice * (r.cycle.end - r.now), 172_800_000)
    && (n.predictedOverrun <==> n.projectedMinor >= r.limitMinor)
    && (result.predictedAt.Some? <==> n.predictedOverrun && twice > 0)
    && (result.predictedAt.Some? ==>
          var wait := result.predictedAt.value - r.now;
          wait >= 0 && twice * wait <= 172_800_000 * n.remainingMinor < twice * (wait + 1))
  }

  lemma CoverageCounts(days: map<int, int>, list: seq<int>, values: seq<int>)
    requires ListsDays(list, values, days) && Suffices(|days|, Coverage(days))
    ensures CoversDays(|days|, Coverage(days), list)
  {
    hide Rising, ValuesAre, FirstKey, LastKey;
    if days != map[] {
      RisingEnds(days, list);
      ShareTimesWhole(|days| as real, (LastKey(days) - FirstKey(days) + 1) as real);
    }
  }

  lemma ProjectsFrom(r: Request, f: Figures)
    requires IsReady(r) && f.spent >= 0 && f.doubledMedian >= 0
    ensures Projects(r, ResultOf(r, f), f.doubledMedian)
  {
    hide Projected, Remaining, SafeToday, DailyAllowance, Percent, Decimal.IsHalfUp, StateOf;
    ProjectionIsNearest(f.spent, f.doubledMedian, r.cycle.end - r.now);
    var result := ResultOf(r, f);
    if result.predictedAt.Some? {
      PredictionIsExact(r.now, r.limitMinor, f.spent, f.doubledMedian, result.predictedAt.value);
    }
  }

  /** The days, their values and twice their median that a result follows from. */
  ghost predicate FollowsDays(r: Request, result: Contract.Result, list: seq<int>, values: seq<int>, twice: int) {
    && AreDays(list, values, Latest(r.scope, r.observations), r.now)
    && IsTwiceMedian(twice, values)
    && CoversDays(result.sampleCount, result.coveragePercent, list)
    && (result.grade.Strong? <==> |list| >= 10 && result.coveragePercent >= 90.0)
    && r.cycle.Cycle? && result.numbers.Some? && Projects(r, result, twice)
  }

  lemma ShownFigures(r: Request, f: Figures)
    requires IsReady(r)
    ensures
      var result := ResultOf(r, f);
      && result.numbers.Some? && result.sampleCount == f.samples && result.coveragePercent == f.coverage
      && (result.grade.Strong? <==> f.samples >= 10 && f.coverage >= 90.0)
  {
    hide NumbersOf, StateOf, PredictedAt;
  }

  /** Every available result is paced on the whole days observed so far. */
  lemma ProjectionFollowsDays(r: Request) returns (list: seq<int>, values: seq<int>, twice: int)
    requires IsPaceable(r, Latest(r.scope, r.observations))
    ensures FollowsDays(r, ResultOf(r, FiguresOf(r, Latest(r.scope, r.observations))), list, values, twice)
  {
    var m := Latest(r.scope, r.observations);
    var days := Days(m, TodayStart(r.now));
    list := BaselineDays(r, m);
    values, twice := InOrder(days), DoubledMedian(InOrder(days));
    hide AreDays, CoversDays, Projects, IsTwiceMedian, ResultOf, DoubledMedian, Coverage, Days, InOrder;
    ShownFigures(r, FiguresOf(r, m));
    CoverageCounts(days, list, values);
    MedianIsTwice(values);
    FiguresAreSound(r, m);
    ProjectsFrom(r, FiguresOf(r, m));
  }
}
