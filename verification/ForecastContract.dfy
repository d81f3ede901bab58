/** The contract every forecast must meet before it is stored or shown. */
module ForecastContract {
  import opened Options

  datatype Kind = QuotaExhaustion | BudgetOverrun

  datatype State = Unavailable | Safe | Warning | Critical | Exceeded

  datatype Grade = NoEvidence | Usable | Strong

  /** An absent instant is an invalid date. */
  datatype Result = Result(
    isPacing: bool, kind: Kind, state: State, policyId: string, sourceId: string, sourceKind: string, window: string,
    scope: string, unit: string, currency: Option<string>, methodId: string, reasonKey: string,
    periodStart: Option<int>, periodEnd: Option<int>, generatedAt: Option<int>, predictedAt: Option<int>,
    sampleCount: int, coveragePercent: real, grade: Grade,
    currentValue: Option<real>, projectedValue: Option<real>, limitValue: Option<real>, numbers: Option<Numbers>)

  /** The part of a result that only budget pacing fills. */
  datatype Numbers = Numbers(spentMinor: int, remainingMinor: int, consumedPercent: real, projectedMinor: int,
                             predictedOverrun: bool, safeTodayMinor: int, dailyAllowanceMinor: int,
                             previousSpentMinor: Option<int>, previousChangePercent: Option<real>)

  predicate IsSpace(c: char) {
    c == ' ' || '\t' <= c <= '\r'
  }

  predicate Blank(s: string) {
    forall i :: 0 <= i < |s| ==> IsSpace(s[i])
  }

  function UpperChar(c: char): char {
    if 'a' <= c <= 'z' then (c as int - 32) as char else c
  }

  function Upper(s: string): string {
    seq(|s|, i requires 0 <= i < |s| => UpperChar(s[i]))
  }

  const UNAVAILABLE_REASONS :=
    ["insufficient_samples", "insufficient_span", "stale_data", "missing_value", "unsupported_source",
     "incompatible_window", "reset_detected", "non_monotonic", "no_consumption", "missing_budget", "mixed_currency",
     "currency_mismatch", "mixed_value_class", "insufficient_coverage", "incomplete_period", "cancelled", "query_failed",
     "no-data", "insufficient-samples", "mixed-value-class", "mixed-currency", "scope-unavailable", "unstable-reset",
     "invalid-policy", "query-failed", "unknown-currency"]

  predicate NotNegative(v: Option<real>) {
    v.None? || v.value >= 0.0
  }

  predicate HasIdentity(r: Result) {
    !Blank(r.sourceId) && !Blank(r.sourceKind) && !Blank(r.window) && !Blank(r.scope) && !Blank(r.unit) && !Blank(r.methodId)
  }

  predicate HasCurrency(r: Result) {
    match r.kind
    case BudgetOverrun => r.currency.Some? && !Blank(r.currency.value) && Upper(r.unit) == Upper(r.currency.value)
    case QuotaExhaustion => r.currency.None?
  }

  predicate HasEvidence(r: Result) {
    && r.periodEnd.Some? && r.generatedAt.Some?
    && r.sampleCount >= 0 && 0.0 <= r.coveragePercent <= 100.0
    && NotNegative(r.currentValue) && NotNegative(r.projectedValue) && NotNegative(r.limitValue)
  }

  predicate StateIsConsistent(r: Result) {
    if r.state.Unavailable? then
      !Blank(r.reasonKey) && r.reasonKey in UNAVAILABLE_REASONS && r.grade.NoEvidence? && r.predictedAt.None?
    else
      && r.currentValue.Some? && r.projectedValue.Some? && r.limitValue.Some?
      && !r.grade.NoEvidence? && Blank(r.reasonKey)
      && (r.kind.QuotaExhaustion? && !r.state.Safe? ==> r.predictedAt.Some?)
      && (r.state.Safe? ==> r.predictedAt.None?)
  }

  predicate PacingIsConsistent(r: Result) {
    && r.kind.BudgetOverrun? && !Blank(r.policyId)
    && r.periodStart.Some? && r.periodEnd.Some? && r.periodStart.value < r.periodEnd.value
    && (!r.state.Unavailable? ==>
          && r.numbers.Some?
          && r.numbers.value.spentMinor >= 0 && r.numbers.value.remainingMinor >= 0
          && r.numbers.value.safeTodayMinor >= 0 && r.numbers.value.dailyAllowanceMinor >= 0
          && r.numbers.value.consumedPercent >= 0.0)
  }

  predicate IsValid(r: Result) {
    && HasIdentity(r) && HasCurrency(r) && HasEvidence(r) && StateIsConsistent(r)
    && (r.isPacing ==> PacingIsConsistent(r))
  }
}
