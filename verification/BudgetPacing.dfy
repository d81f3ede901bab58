/** Pacing a budget: spend so far, a projection from the daily baseline, allowances for the
    rest of the cycle, and a state. Amounts are whole minor units; quotients are exact before
    they are rounded. */
module BudgetPacing {
  import opened Bounds
  import opened Options
  import opened BillingCycle
  import opened Observations
  import opened DailyBaseline
  import opened Sums
  import Calendar
  import Contract = ForecastContract
  import CostEngine
  import Decimal

  const MINIMUM_SAMPLES := 5
  const MINIMUM_COVERAGE := 70.0
  const EPSILON := 0.000_000_001

  /** A time zone: the instants of local midnights, and the local day of an instant. */
  datatype LocalTime = LocalTime(midnight: Zone, day: Time -> int)

  ghost predicate IsClock(z: LocalTime) {
    Increasing(z.midnight) && forall t :: IsLocalDay(z.midnight, z.day(t), t)
  }

  /** `minorDigits` is what the currency table says about `currency`. */
  datatype Request = Request(
    policyId: string, sourceId: string, sourceKind: string, scope: Scope, scopeLabel: string, actual: bool,
    limitMinor: int, currency: string, minorDigits: Option<nat>, warningPercent: int, criticalPercent: int,
    periodType: string, zone: Option<LocalTime>, cycle: Cycle, previousCycle: Cycle, now: Time,
    preflightReason: string, observations: seq<Observation>)

  // ---------- Arithmetic ----------

  /** Spend plus half the doubled median per remaining day, rounded, and never below the spend. */
  function Projected(spent: int, doubledMedian: int, left: int): int {
    Max(spent, CostEngine.RoundDivide(2 * Calendar.DAY_MS * spent + doubledMedian * left, 2 * Calendar.DAY_MS))
  }

  function Remaining(limit: int, spent: int): int {
    Max(0, limit - spent)
  }

  /** The part of the limit that is due at the end of today, rounded down. */
  function ProRata(limit: int, elapsed: int, period: int): int {
    if period > 0 then (limit * elapsed) / period else 0
  }

  function SafeToday(limit: int, spent: int, proRata: int): int {
    Max(0, Min(Remaining(limit, spent), proRata - spent))
  }

  function DaysLeft(today: int, lastDay: int): int {
    Max(1, lastDay - today + 1)
  }

  function DailyAllowance(limit: int, spent: int, days: int): int
    requires days > 0
  {
    Remaining(limit, spent) / days
  }

  function Percent(spent: int, limit: int): real
    requires limit > 0
  {
    spent as real / limit as real * 100.0
  }

  function StateOf(spent: int, limit: int, warning: int, critical: int, overrun: bool): Contract.State
    requires limit > 0
  {
    if spent >= limit then Contract.Exceeded
    else if Percent(spent, limit) + EPSILON >= critical as real then Contract.Critical
    else if Percent(spent, limit) + EPSILON >= warning as real || overrun then Contract.Warning
    else Contract.Safe
  }

  /** When the baseline uses up the rest of the limit. */
  function PredictedAt(now: Time, limit: int, spent: int, doubledMedian: int, overrun: bool): Option<Time> {
    if overrun && doubledMedian > 0 then Some(now + (Remaining(limit, spent) * (2 * Calendar.DAY_MS)) / doubledMedian) else None
  }

  // ---------- What allowances promise ----------

  /** What is due at the end of today: the largest whole amount in proportion to the time. */
  ghost predicate IsDue(due: int, limit: int, elapsed: int, period: int) {
    due * period <= limit * elapsed < due * period + period
  }

  /** Spending `safe` more reaches the smaller of the limit and what is due, if that is ahead at all. */
  ghost predicate IsSafe(safe: int, spent: int, limit: int, due: int) {
    if spent <= limit && spent <= due then spent + safe == limit <= due || spent + safe == due <= limit else safe == 0
  }

  lemma DueIsGreatest(limit: int, elapsed: int, period: int)
    requires period > 0
    ensures IsDue(ProRata(limit, elapsed, period), limit, elapsed, period)
  {
    var total := limit * elapsed;
    assert total == (total / period) * period + total % period;
  }

  /** What is safe today reaches the limit or what is due, whichever comes first; the allowance
      on each remaining day uses up the limit to less than a unit a day. */
  lemma AllowancesFit(limit: int, spent: int, proRata: int, days: int)
    requires days > 0
    ensures SafeToday(limit, spent, proRata) >= 0 && DailyAllowance(limit, spent, days) >= 0
    ensures IsSafe(SafeToday(limit, spent, proRata), spent, limit, proRata)
    ensures Remaining(limit, spent) == if spent <= limit then limit - spent else 0
    ensures DailyAllowance(limit, spent, days) * days <= Remaining(limit, spent)
    ensures Remaining(limit, spent) < DailyAllowance(limit, spent, days) * days + days
    ensures spent + DailyAllowance(limit, spent, days) * days <= Max(spent, limit)
  {
    var r := Remaining(limit, spent);
    assert r == (r / days) * days + r % days;
  }

  lemma QuotientAtMost(x: int, limit: int, p: int)
    requires p > 0 && 0 <= x <= limit * p
    ensures 0 <= x / p <= limit
  {
    var q := x / p;
    assert x == q * p + x % p;
    ProductOrder(p, limit + 1, q);
    assert p * (limit + 1) == limit * p + p;
  }

  /** The part due never exceeds the limit. */
  lemma ProRataWithinLimit(limit: int, elapsed: int, period: int)
    requires limit > 0 && 0 <= elapsed <= period && period > 0
    ensures 0 <= ProRata(limit, elapsed, period) <= limit
  {
    ProductOrder(limit, 0, elapsed);
    ProductOrder(limit, elapsed, period);
    QuotientAtMost(limit * elapsed, limit, period);
  }

  /** The projection is at least the spend and the nearest whole amount to the exact one. */
  lemma ProjectionIsNearest(spent: int, doubledMedian: int, left: int)
    requires spent >= 0 && doubledMedian >= 0 && left >= 0
    ensures Projected(spent, doubledMedian, left) >= spent
    ensures Decimal.IsHalfUp(Projected(spent, doubledMedian, left), 2 * Calendar.DAY_MS * spent + doubledMedian * left, 2 * Calendar.DAY_MS)
  {
    var more := doubledMedian * left;
    assert more >= 0;
    CostEngine.RoundDivideIsHalfAway(2 * Calendar.DAY_MS * spent + more, 2 * Calendar.DAY_MS);
    RoundedNotBelow(spent, more);
  }

  lemma RoundedNotBelow(spent: int, more: int)
    requires spent >= 0 && more >= 0
    ensures CostEngine.RoundDivide(2 * Calendar.DAY_MS * spent + more, 2 * Calendar.DAY_MS) >= spent
  {}

  /** The predicted instant is the last whole millisecond at which the baseline is within the limit. */
  lemma PredictionIsExact(now: Time, limit: int, spent: int, doubledMedian: int, at: Time)
    requires PredictedAt(now, limit, spent, doubledMedian, true) == Some(at)
    ensures at >= now
    ensures doubledMedian * (at - now) <= 2 * Calendar.DAY_MS * Remaining(limit, spent) < doubledMedian * (at - now + 1)
  {
    var a := Remaining(limit, spent) * (2 * Calendar.DAY_MS);
    assert a == doubledMedian * (a / doubledMedian) + a % doubledMedian;
  }

  /** It lies in the period exactly when the unrounded projection, a millisecond later, exceeds the limit. */
  lemma PredictionInPeriod(now: Time, end: Time, limit: int, spent: int, doubledMedian: int, at: Time)
    requires PredictedAt(now, limit, spent, doubledMedian, true) == Some(at)
    ensures at <= end <==> 2 * Calendar.DAY_MS * Remaining(limit, spent) < doubledMedian * (end - now + 1)
  {
    PredictionIsExact(now, limit, spent, doubledMedian, at);
    ProductOrder(doubledMedian, at - now + 1, end - now + 1);
    ProductOrder(doubledMedian, end - now + 1, at - now);
  }

  lemma ProductOrder(x: int, a: int, b: int)
    requires x > 0
    ensures a <= b ==> x * a <= x * b
  {}

  // ---------- What states mean ----------

  function Severity(state: Contract.State): nat {
    match state
    case Unavailable => 0
    case Safe => 0
    case Warning => 1
    case Critical => 2
    case Exceeded => 3
  }

  lemma PercentGrows(a: int, b: int, limit: int)
    requires a <= b && limit > 0
    ensures Percent(a, limit) <= Percent(b, limit)
  {
    QuotientGrows(a as real, b as real, limit as real);
  }

  lemma QuotientGrows(a: real, b: real, p: real)
    requires a <= b && p > 0.0
    ensures a / p <= b / p
  {}

  /** More spend or a predicted overrun never lowers the severity. */
  lemma SeverityIsMonotone(a: int, b: int, limit: int, warning: int, critical: int, overrunA: bool, overrunB: bool)
    requires a <= b && limit > 0 && warning <= critical && (overrunA ==> overrunB)
    ensures Severity(StateOf(a, limit, warning, critical, overrunA)) <= Severity(StateOf(b, limit, warning, critical, overrunB))
  {
    PercentGrows(a, b, limit);
  }

  lemma PercentReached(spent: int, limit: int, percent: int)
    requires limit > 0
    ensures 100 * spent >= percent * limit ==> Percent(spent, limit) >= percent as real
    ensures 100 * spent < percent * limit ==> Percent(spent, limit) < percent as real
  {
    var s, l, p := spent as real, limit as real, percent as real;
    var q := s / l;
    assert s == q * l;
    assert (100 * spent) as real == 100.0 * q * l;
    assert (percent * limit) as real == p * l;
    CompareFactors(100.0 * q, p, l);
  }

  lemma CompareFactors(a: real, b: real, x: real)
    requires x > 0.0
    ensures a * x >= b * x ==> a >= b
    ensures a * x < b * x ==> a < b
  {}

  /** Thresholds are percentages of the limit, met from below by less than the tolerance. */
  lemma StatesFollowThresholds(spent: int, limit: int, warning: int, critical: int, overrun: bool)
    requires limit > 0 && warning <= critical
    ensures 100 * spent >= critical * limit ==> Severity(StateOf(spent, limit, warning, critical, overrun)) >= 2
    ensures 100 * spent >= warning * limit || overrun ==> Severity(StateOf(spent, limit, warning, critical, overrun)) >= 1
    ensures Percent(spent, limit) < critical as real - EPSILON && spent < limit ==>
              Severity(StateOf(spent, limit, warning, critical, overrun)) <= 1
    ensures Percent(spent, limit) < warning as real - EPSILON && spent < limit && !overrun ==>
              StateOf(spent, limit, warning, critical, overrun) == Contract.Safe
  {
    PercentReached(spent, limit, critical);
    PercentReached(spent, limit, warning);
  }

  // ---------- Requests ----------

  predicate PolicyIsValid(r: Request) {
    && !Contract.Blank(r.policyId) && !Contract.Blank(r.sourceId) && !Contract.Blank(r.sourceKind)
    && r.limitMinor > 0 && 0 < r.warningPercent <= r.criticalPercent <= 100
    && ValidCycle(r.cycle) && r.cycle.start <= r.now < r.cycle.end
  }

  predicate IsReady(r: Request) {
    r.preflightReason == "" && PolicyIsValid(r) && r.minorDigits.Some? && r.zone.Some?
  }

  predicate IsCompatible(r: Request, o: Observation) {
    o.valueMinor.Some? && o.valueMinor.value >= 0 && o.currency == r.currency && o.actual == r.actual
  }

  predicate AllCompatible(r: Request, m: ByInterval) {
    KeyedByInterval(m) && forall k :: k in m ==> IsCompatible(r, m[k])
  }

  function TodayStart(now: Time): Time {
    now / Calendar.DAY_MS * Calendar.DAY_MS
  }

  predicate Suffices(samples: nat, coverage: real) {
    samples >= MINIMUM_SAMPLES && coverage + EPSILON >= MINIMUM_COVERAGE
  }

  ghost predicate IsPaceable(r: Request, m: ByInterval) {
    && IsReady(r) && m != map[] && AllCompatible(r, m)
    && Within(m, r.cycle) != map[]
    && var days := Days(m, TodayStart(r.now));
       Suffices(|days|, Coverage(days))
  }

  // ---------- Results ----------

  function ScopeText(r: Request): string {
    if r.scope.mode == "scoped" then r.scope.kind + ":" + r.scopeLabel else "aggregate"
  }

  function Major(minor: int, digits: nat): real {
    minor as real / Decimal.Pow10(digits) as real
  }

  function CycleReason(c: Cycle): string {
    match c
    case Invalid(UnstableReset) => "unstable-reset"
    case Invalid(InvalidPolicy) => "invalid-policy"
    case Cycle(_, _) => ""
  }

  function NoResult(r: Request, reason: string, samples: nat, coverage: real): Contract.Result {
    Contract.Result(
      true, Contract.BudgetOverrun, Contract.Unavailable, r.policyId, r.sourceId, r.sourceKind, r.periodType,
      ScopeText(r), if r.currency == "" then "unknown" else r.currency, Some(r.currency), "budget-pacing-v2", reason,
      if r.cycle.Cycle? then Some(r.cycle.start) else None, Some(if r.cycle.Cycle? then r.cycle.end else r.now),
      Some(r.now), None,
      samples, coverage, Contract.NoEvidence, None, None, None, None)
  }

  /** Figures that depend on the observations: spend, previous spend, doubled median, days and coverage. */
  datatype Figures = Figures(spent: int, previous: Option<int>, doubledMedian: int, samples: nat, coverage: real)

  function NumbersOf(r: Request, f: Figures): Contract.Numbers
    requires IsReady(r)
  {
    var zone := r.zone.value;
    var today := zone.day(r.now);
    var boundary := Min(zone.midnight(today + 1), r.cycle.end);
    var projected := Projected(f.spent, f.doubledMedian, r.cycle.end - r.now);
    Contract.Numbers(
      f.spent, Remaining(r.limitMinor, f.spent), Percent(f.spent, r.limitMinor), projected, projected >= r.limitMinor,
      SafeToday(r.limitMinor, f.spent, ProRata(r.limitMinor, boundary - r.cycle.start, r.cycle.end - r.cycle.start)),
      DailyAllowance(r.limitMinor, f.spent, DaysLeft(today, zone.day(r.cycle.end - 1))),
      f.previous,
      if f.previous.Some? && f.previous.value > 0
      then Some((f.spent - f.previous.value) as real / f.previous.value as real * 100.0) else None)
  }

  function ResultOf(r: Request, f: Figures): Contract.Result
    requires IsReady(r)
  {
    var n := NumbersOf(r, f);
    Contract.Result(
      true, Contract.BudgetOverrun, StateOf(f.spent, r.limitMinor, r.warningPercent, r.criticalPercent, n.predictedOverrun),
      r.policyId, r.sourceId, r.sourceKind, r.periodType, ScopeText(r), r.currency, Some(r.currency), "budget-pacing-v2", "",
      Some(r.cycle.start), Some(r.cycle.end), Some(r.now),
      PredictedAt(r.now, r.limitMinor, f.spent, f.doubledMedian, n.predictedOverrun),
      f.samples, f.coverage, if f.samples >= 10 && f.coverage >= 90.0 then Contract.Strong else Contract.Usable,
      Some(Major(f.spent, r.minorDigits.value)), Some(Major(n.projectedMinor, r.minorDigits.value)),
      Some(Major(r.limitMinor, r.minorDigits.value)), Some(n))
  }

  ghost function FiguresOf(r: Request, m: ByInterval): Figures
    requires AllCompatible(r, m)
  {
    var days := Days(m, TodayStart(r.now));
    Figures(Total(Within(m, r.cycle)),
            PreviousSpend(r, m), DoubledMedian(InOrder(days)), |days|, Coverage(days))
  }

  ghost function PreviousSpend(r: Request, m: ByInterval): Option<int> {
    if ValidCycle(r.previousCycle) && Within(m, r.previousCycle) != map[] then Some(Total(Within(m, r.previousCycle))) else None
  }

  // ---------- The evaluation ----------

  /** The reasons why a ready request may still get no result. */
  predicate IsObstacle(reason: string) {
    || reason == "no-data" || reason == "scope-unavailable" || reason == "mixed-currency"
    || reason == "mixed-value-class" || reason == "insufficient-samples"
  }

  /** What an observation may have against being paced, as the reason names it. */
  ghost predicate IsFault(r: Request, o: Observation, reason: string) {
    || (reason == "no-data" && (o.valueMinor.None? || o.valueMinor.value < 0))
    || (reason == "mixed-currency" && o.currency != r.currency)
    || (reason == "mixed-value-class" && o.actual != r.actual)
  }

  /** A reason names something that the observations really lack. */
  ghost predicate Explains(r: Request, m: ByInterval, reason: string) {
    || (reason == "scope-unavailable" && m == map[] && r.scope.mode == "scoped" && r.observations != [])
    || (reason == "no-data" && m == map[] && (r.scope.mode == "scoped" ==> r.observations == []))
    || (reason == "no-data" && Within(m, r.cycle) == map[])
    || (exists k :: k in m && IsFault(r, m[k], reason))
    || (reason == "insufficient-samples" && AllCompatible(r, m)
        && var days := Days(m, TodayStart(r.now)); |days| < 5 || Coverage(days) < 70.0 - 0.000_000_001)
  }

  /** Why a request that is not ready gets no result. */
  ghost predicate IsRefusal(r: Request, reason: string) {
    if r.preflightReason != "" then reason == r.preflightReason
    else if !PolicyIsValid(r) then reason == (if r.cycle == Invalid(UnstableReset) then "unstable-reset" else "invalid-policy")
    else if r.minorDigits.None? then reason == "unknown-currency"
    else reason == "invalid-policy"
  }

  /** What the checks before an evaluation leave open: names that might be blank. */
  predicate IsNamed(r: Request) {
    !Contract.Blank(r.currency) && !Contract.Blank(r.periodType)
  }

  lemma ObstacleIsKnown(reason: string)
    requires IsObstacle(reason)
    ensures reason in Contract.UNAVAILABLE_REASONS && !Contract.Blank(reason)
  {
    var all := Contract.UNAVAILABLE_REASONS;
    assert all[17] == "no-data" && all[18] == "insufficient-samples" && all[19] == "mixed-value-class";
    assert all[20] == "mixed-currency" && all[21] == "scope-unavailable";
    assert !Contract.IsSpace(reason[0]);
  }

  lemma ObstacleIsValid(r: Request, reason: string, samples: nat, coverage: real)
    requires IsReady(r) && IsObstacle(reason) && 0.0 <= coverage <= 100.0
    ensures IsNamed(r) ==> Contract.IsValid(NoResult(r, reason, samples, coverage))
  {
    ObstacleIsKnown(reason);
    ScopeIsNamed(r);
  }

  /** Checks the observations in the unknown order of the hash; the first obstacle names the reason. */
  method CheckCompatible(r: Request, list: seq<Observation>) returns (reason: string)
    ensures reason == "" <==> forall i :: 0 <= i < |list| ==> IsCompatible(r, list[i])
    ensures reason == "" || IsObstacle(reason)
    ensures reason != "" ==> exists o :: o in list && IsFault(r, o, reason)
  {
    for i := 0 to |list|
      invariant forall j :: 0 <= j < i ==> IsCompatible(r, list[j])
    {
      var o := list[i];
      assert o in list && forall reason :: IsFault(r, o, reason) ==> exists fault :: fault in list && IsFault(r, fault, reason);
      if o.valueMinor.None? || o.valueMinor.value < 0 {
        return "no-data";
      }
      if o.currency != r.currency {
        return "mixed-currency";
      }
      if o.actual != r.actual {
        return "mixed-value-class";
      }
    }
    return "";
  }

  method Measure(days: map<int, int>) returns (samples: nat, coverage: real, doubledMedian: int)
    ensures samples == |days| && coverage == Coverage(days) && doubledMedian == DoubledMedian(InOrder(days))
  {
    samples := |days|;
    if days == map[] {
      return samples, 0.0, 0;
    }
    var first, last, values := ListDays(days);
    coverage := CoverageOf(samples, last - first + 1);
    doubledMedian := DoubledMedian(values);
  }

  lemma CompatibleLists(r: Request, list: seq<Observation>, m: ByInterval)
    requires Lists(list, m)
    ensures (forall i :: 0 <= i < |list| ==> IsCompatible(r, list[i])) <==> AllCompatible(r, m)
  {
    if forall i :: 0 <= i < |list| ==> IsCompatible(r, list[i]) {
      forall k | k in m
        ensures IsCompatible(r, m[k])
      {
        assert m[k] in list;
      }
    }
  }

  lemma NothingMatches(r: Request)
    requires Latest(r.scope, r.observations) == map[]
    ensures forall o :: o in r.observations ==> !MatchesScope(r.scope, o)
    ensures r.observations == [] || r.observations[0] in r.observations
  {
    forall o | o in r.observations
      ensures !MatchesScope(r.scope, o)
    {
      LatestIsLatest(r.scope, r.observations, IntervalOf(o));
      assert MatchesScope(r.scope, o) ==> Competes(r.scope, r.observations, o, IntervalOf(o));
    }
  }

  /** A result is available exactly when the latest observations allow one, and then it is
      the one they determine. */
  method Evaluate(r: Request) returns (result: Contract.Result)
    ensures
      var m := Latest(r.scope, r.observations);
      && (result.state.Unavailable? <==> !IsPaceable(r, m))
      && (IsPaceable(r, m) ==> result == ResultOf(r, FiguresOf(r, m)))
      && (IsReady(r) && !IsPaceable(r, m) ==> Explains(r, m, result.reasonKey))
    ensures !IsReady(r) ==> IsRefusal(r, result.reasonKey)
    ensures IsReady(r) && IsNamed(r) ==> Contract.IsValid(result)
  {
    if r.preflightReason != "" {
      return NoResult(r, r.preflightReason, 0, 0.0);
    }
    if !PolicyIsValid(r) {
      return NoResult(r, if CycleReason(r.cycle) == "" then "invalid-policy" else CycleReason(r.cycle), 0, 0.0);
    }
    if r.minorDigits.None? {
      return NoResult(r, "unknown-currency", 0, 0.0);
    }
    if r.zone.None? {
      return NoResult(r, "invalid-policy", 0, 0.0);
    }
    var latest, sawOtherScope := CollectLatest(r.scope, r.observations);
    if latest == map[] {
      var reason := if r.scope.mode == "scoped" && sawOtherScope then "scope-unavailable" else "no-data";
      NothingMatches(r);
      ObstacleIsValid(r, reason, 0, 0.0);
      return NoResult(r, reason, 0, 0.0);
    }
    LatestIsKeyed(r.scope, r.observations);
    result := EvaluateLatest(r, latest);
  }

  method EvaluateLatest(r: Request, latest: ByInterval) returns (result: Contract.Result)
    requires IsReady(r) && latest != map[] && KeyedByInterval(latest)
    ensures result.state.Unavailable? <==> !IsPaceable(r, latest)
    ensures IsPaceable(r, latest) ==> result == ResultOf(r, FiguresOf(r, latest))
    ensures !IsPaceable(r, latest) ==> Explains(r, latest, result.reasonKey)
    ensures IsNamed(r) ==> Contract.IsValid(result)
  {
    var figures, reason, samples, coverage := FindFigures(r, latest);
    match figures {
      case None =>
        ObstacleIsValid(r, reason, samples, coverage);
        result := NoResult(r, reason, samples, coverage);
      case Some(f) =>
        FiguresAreSound(r, latest);
        if IsNamed(r) {
          FiguresAreValid(r, f);
        }
        result := ResultOf(r, f);
    }
  }

  method FindFigures(r: Request, latest: ByInterval)
    returns (figures: Option<Figures>, reason: string, samples: nat, coverage: real)
    requires IsReady(r) && latest != map[] && KeyedByInterval(latest)
    ensures figures.Some? <==> IsPaceable(r, latest)
    ensures figures.Some? ==> figures.value == FiguresOf(r, latest)
    ensures figures.None? ==> IsObstacle(reason) && 0.0 <= coverage <= 100.0 && Explains(r, latest, reason)
  {
    figures, samples, coverage := None, 0, 0.0;
    var compatible := ListOf(latest);
    CompatibleLists(r, compatible, latest);
    reason := CheckCompatible(r, compatible);
    if reason != "" {
      FaultIsKept(r, compatible, latest, reason);
      return;
    }
    var spent, hasCurrent := SumWithin(compatible, r.cycle, latest);
    if !hasCurrent {
      reason := "no-data";
      return;
    }
    var days := CollectDays(compatible, TodayStart(r.now), latest);
    var doubledMedian;
    samples, coverage, doubledMedian := Measure(days);
    CoverageIsPercentage(days);
    if !Suffices(samples, coverage) {
      reason := "insufficient-samples";
      return;
    }
    var previous := FindPrevious(r, compatible, latest);
    figures := Some(Figures(spent, previous, doubledMedian, samples, coverage));
  }

  lemma FaultIsKept(r: Request, list: seq<Observation>, m: ByInterval, reason: string)
    requires Lists(list, m) && exists o :: o in list && IsFault(r, o, reason)
    ensures exists k :: k in m && IsFault(r, m[k], reason)
  {
    var o :| o in list && IsFault(r, o, reason);
    assert m[IntervalOf(o)] == o;
  }

  method FindPrevious(r: Request, list: seq<Observation>, ghost m: ByInterval) returns (previous: Option<int>)
    requires Lists(list, m)
    ensures previous == PreviousSpend(r, m)
  {
    previous := None;
    if ValidCycle(r.previousCycle) {
      var spent, hasAny := SumWithin(list, r.previousCycle, m);
      if hasAny {
        previous := Some(spent);
      }
    }
  }

  // ---------- Properties of every available result ----------

  /** Only the latest observation of each interval counts, in any order. */
  lemma OnlyLatestCount(r: Request, other: Request)
    requires other == r.(observations := other.observations)
    requires
      || (LatestTimesUnique(r.scope, r.observations) && forall o :: o in r.observations <==> o in other.observations)
      || (forall o :: o in other.observations <==>
            exists k :: k in Latest(r.scope, r.observations) && Latest(r.scope, r.observations)[k] == o)
    ensures
      var m, n := Latest(r.scope, r.observations), Latest(other.scope, other.observations);
      && (IsPaceable(r, m) <==> IsPaceable(other, n))
      && (IsPaceable(r, m) ==> ResultOf(r, FiguresOf(r, m)) == ResultOf(other, FiguresOf(other, n)))
  {
    if LatestTimesUnique(r.scope, r.observations) && forall o :: o in r.observations <==> o in other.observations {
      LatestIgnoresOrder(r.scope, r.observations, other.observations);
    } else {
      OnlyLatestMatter(r.scope, r.observations, other.observations);
    }
    ListsAside(r, other, Latest(r.scope, r.observations));
  }

  /** Beyond the latest observations, the list is not looked at. */
  lemma ListsAside(r: Request, other: Request, m: ByInterval)
    requires other == r.(observations := other.observations)
    ensures IsPaceable(r, m) <==> IsPaceable(other, m)
    ensures IsPaceable(r, m) ==> ResultOf(r, FiguresOf(r, m)) == ResultOf(other, FiguresOf(other, m))
  {
    ReadyAside(r, other, m);
    if IsPaceable(r, m) {
      FiguresAside(r, other, m);
      ResultAside(r, other, FiguresOf(r, m));
    }
  }

  lemma ReadyAside(r: Request, other: Request, m: ByInterval)
    requires other == r.(observations := other.observations)
    ensures IsReady(r) <==> IsReady(other)
    ensures AllCompatible(r, m) <==> AllCompatible(other, m)
  {
    assert forall o :: IsCompatible(r, o) <==> IsCompatible(other, o);
  }

  lemma FiguresAside(r: Request, other: Request, m: ByInterval)
    requires other == r.(observations := other.observations) && AllCompatible(r, m) && AllCompatible(other, m)
    ensures FiguresOf(r, m) == FiguresOf(other, m)
  {}

  lemma ResultAside(r: Request, other: Request, f: Figures)
    requires other == r.(observations := other.observations) && IsReady(r) && IsReady(other)
    ensures ResultOf(r, f) == ResultOf(other, f)
  {}

  /** Safe means that neither the spend nor the projection reaches the limit, and nothing is predicted. */
  lemma SafeMeansNoPrediction(r: Request, f: Figures)
    requires IsReady(r)
    ensures
      var result := ResultOf(r, f);
      && (result.state.Safe? ==> result.predictedAt.None? && f.spent < r.limitMinor && !result.numbers.value.predictedOverrun)
      && (result.state.Exceeded? <==> f.spent >= r.limitMinor)
      && (result.predictedAt.Some? ==> result.predictedAt.value >= r.now && !result.state.Safe?)
  {
    var overrun := NumbersOf(r, f).predictedOverrun;
    if overrun && f.doubledMedian > 0 {
      PredictionIsExact(r.now, r.limitMinor, f.spent, f.doubledMedian,
                        PredictedAt(r.now, r.limitMinor, f.spent, f.doubledMedian, true).value);
    }
  }

  lemma FiguresAreSound(r: Request, m: ByInterval)
    requires IsReady(r) && AllCompatible(r, m)
    ensures FiguresOf(r, m).spent >= 0 && FiguresOf(r, m).doubledMedian >= 0
    ensures 0.0 <= FiguresOf(r, m).coverage <= 100.0
  {
    TotalNotNegative(Within(m, r.cycle));
    var days := Days(m, TodayStart(r.now));
    forall v | v in InOrder(days)
      ensures v >= 0
    {
      InOrderValues(days, v);
    }
    MedianNotNegative(InOrder(days));
    CoverageIsPercentage(days);
  }

  lemma QuotientNotNegative(a: real, b: real)
    requires a >= 0.0 && b > 0.0
    ensures a / b >= 0.0
  {}

  /** An available result meets the forecast contract exactly when its period type is not blank. */
  lemma ValidIffPeriodNamed(r: Request, m: ByInterval)
    requires IsPaceable(r, m) && !Contract.Blank(r.currency)
    ensures Contract.IsValid(ResultOf(r, FiguresOf(r, m))) <==> !Contract.Blank(r.periodType)
  {
    FiguresAreSound(r, m);
    FiguresAreValid(r, FiguresOf(r, m));
  }

  lemma FiguresAreValid(r: Request, f: Figures)
    requires IsReady(r) && !Contract.Blank(r.currency)
    requires f.spent >= 0 && f.doubledMedian >= 0 && 0.0 <= f.coverage <= 100.0
    ensures Contract.IsValid(ResultOf(r, f)) <==> !Contract.Blank(r.periodType)
  {
    ScopeIsNamed(r);
    EvidenceIsValid(r, f);
    StateIsValid(r, f);
    NumbersAreValid(r, f);
  }

  lemma EvidenceIsValid(r: Request, f: Figures)
    requires IsReady(r) && f.spent >= 0 && 0.0 <= f.coverage <= 100.0
    ensures Contract.HasEvidence(ResultOf(r, f))
  {
    var power := Decimal.Pow10(r.minorDigits.value) as real;
    QuotientNotNegative(f.spent as real, power);
    QuotientNotNegative(NumbersOf(r, f).projectedMinor as real, power);
    QuotientNotNegative(r.limitMinor as real, power);
  }

  lemma StateIsValid(r: Request, f: Figures)
    requires IsReady(r)
    ensures Contract.StateIsConsistent(ResultOf(r, f))
  {
    SafeMeansNoPrediction(r, f);
  }

  lemma NumbersAreValid(r: Request, f: Figures)
    requires IsReady(r) && f.spent >= 0
    ensures Contract.PacingIsConsistent(ResultOf(r, f))
  {
    var n := NumbersOf(r, f);
    PacedNumbers(r, f);
    QuotientNotNegative(f.spent as real, r.limitMinor as real);
  }

  lemma ScopeIsNamed(r: Request)
    ensures !Contract.Blank(ScopeText(r)) && !Contract.Blank("budget-pacing-v2") && Contract.Blank("")
  {
    if r.scope.mode == "scoped" {
      assert ScopeText(r)[|r.scope.kind|] == ':';
    } else {
      assert ScopeText(r)[0] == 'a';
    }
    assert "budget-pacing-v2"[0] == 'b';
  }

  /** With a consistent clock today ends inside the cycle, so what is safe today is due by then,
      and the remaining days include today. */
  lemma TodayLiesInCycle(r: Request)
    requires IsReady(r) && IsClock(r.zone.value)
    ensures
      var zone := r.zone.value;
      var boundary := Min(zone.midnight(zone.day(r.now) + 1), r.cycle.end);
      && r.now < boundary <= r.cycle.end
      && 0 <= ProRata(r.limitMinor, boundary - r.cycle.start, r.cycle.end - r.cycle.start) <= r.limitMinor
      && DaysLeft(zone.day(r.now), zone.day(r.cycle.end - 1)) == zone.day(r.cycle.end - 1) - zone.day(r.now) + 1
  {
    var zone := r.zone.value;
    var today, lastDay := zone.day(r.now), zone.day(r.cycle.end - 1);
    assert IsLocalDay(zone.midnight, today, r.now) && IsLocalDay(zone.midnight, lastDay, r.cycle.end - 1);
    if lastDay < today {
      InZone(zone.midnight, lastDay + 1, today);
    }
    ProRataWithinLimit(r.limitMinor, Min(zone.midnight(today + 1), r.cycle.end) - r.cycle.start, r.cycle.end - r.cycle.start);
  }

  /** The safe amount, the daily allowance and what remains use up the limit, and no more, on
      the numbers of every available result. */
  lemma PacingKeepsToLimit(r: Request, m: ByInterval)
    requires IsPaceable(r, m)
    ensures
      var n := ResultOf(r, FiguresOf(r, m)).numbers.value;
      var today, lastDay := r.zone.value.day(r.now), r.zone.value.day(r.cycle.end - 1);
      var tomorrow := r.zone.value.midnight(today + 1);
      var boundary := if tomorrow <= r.cycle.end then tomorrow else r.cycle.end;
      var days := if lastDay >= today then lastDay - today + 1 else 1;
      && n.projectedMinor >= n.spentMinor >= 0
      && n.remainingMinor == (if n.spentMinor <= r.limitMinor then r.limitMinor - n.spentMinor else 0)
      && (exists due ::
            && IsDue(due, r.limitMinor, boundary - r.cycle.start, r.cycle.end - r.cycle.start)
            && IsSafe(n.safeTodayMinor, n.spentMinor, r.limitMinor, due))
      && n.dailyAllowanceMinor * days <= n.remainingMinor < n.dailyAllowanceMinor * days + days
  {
    FiguresAreSound(r, m);
    PacedNumbers(r, FiguresOf(r, m));
  }

  lemma PacedNumbers(r: Request, f: Figures)
    requires IsReady(r)
    ensures
      var n := NumbersOf(r, f);
      var zone := r.zone.value;
      var boundary := Min(zone.midnight(zone.day(r.now) + 1), r.cycle.end);
      var days := DaysLeft(zone.day(r.now), zone.day(r.cycle.end - 1));
      && n.projectedMinor >= n.spentMinor
      && n.safeTodayMinor >= 0 && n.dailyAllowanceMinor >= 0 && n.remainingMinor >= 0
      && (exists due ::
            && IsDue(due, r.limitMinor, boundary - r.cycle.start, r.cycle.end - r.cycle.start)
            && IsSafe(n.safeTodayMinor, n.spentMinor, r.limitMinor, due))
      && n.dailyAllowanceMinor * days <= n.remainingMinor < n.dailyAllowanceMinor * days + days
  {
    var zone := r.zone.value;
    var today := zone.day(r.now);
    var boundary := Min(zone.midnight(today + 1), r.cycle.end);
    DueIsGreatest(r.limitMinor, boundary - r.cycle.start, r.cycle.end - r.cycle.start);
    AllowancesFit(r.limitMinor, f.spent, ProRata(r.limitMinor, boundary - r.cycle.start, r.cycle.end - r.cycle.start),
                  DaysLeft(today, zone.day(r.cycle.end - 1)));
  }
}
