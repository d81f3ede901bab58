/** Estimating a price from token counts and rates in nano-units, with rounding at every
    component, at a batch discount, and at the currency's minor unit. */
module CostEngine {
  import opened Options
  import opened Decimal
  import opened MoneyText

  const RATE_PLACES := 9
  const TOKEN_PLACES := 6
  const TOKEN_SCALE := 1_000_000
  const PERCENT_PLACES := 2
  const MIN64 := -0x8000_0000_0000_0000

  /** Division rounded half away from zero; a non-positive denominator yields nothing. */
  function RoundDivide(numerator: int, denominator: int): int {
    if denominator <= 0 then 0
    else
      var magnitude := (Abs(numerator) + denominator / 2) / denominator;
      if numerator < 0 then -magnitude else magnitude
  }

  lemma DivisionBounds(x: nat, d: nat)
    requires d > 0
    ensures (x / d) * d <= x < (x / d) * d + d
  {}

  /** The magnitude is rounded half up, whatever the parity of the denominator. */
  lemma RoundDivideIsHalfAway(n: int, d: int)
    requires d > 0
    ensures IsHalfUp(Abs(RoundDivide(n, d)), Abs(n), d)
    ensures RoundDivide(n, d) != 0 ==> (RoundDivide(n, d) < 0 <==> n < 0)
    ensures 2 * Abs(RoundDivide(n, d) * d - n) <= d
  {
    var m := (Abs(n) + d / 2) / d;
    DivisionBounds(Abs(n) + d / 2, d);
    assert Abs(RoundDivide(n, d)) == m;
    assert (-m) * d == -(m * d);
  }

  // ---------- Inputs ----------

  type Rates = map<string, string>

  datatype Tier = Tier(min: string, max: Option<string>, rates: Rates)

  datatype Fee = Fee(kind: string, amount: string, free: string)

  /** `gaps` says that something outside the numbers is missing: the currency, the price
      status, a timestamp, or a modality, service tier, route or region without rates.
      `overlays` are the rate tables that were found for these. A price that is not per
      token carries its unit amount. */
  datatype Price = Price(perUnit: bool, unitAmount: Option<string>, rates: Rates, tiers: seq<Tier>, overlays: seq<Rates>,
                         batchDiscount: Option<string>, fees: seq<Fee>, minorDigits: Option<nat>, gaps: bool)

  datatype Usage = Usage(unitQuantity: Option<string>, input: Option<string>, output: Option<string>,
                         context: Option<string>, cached: Option<string>, cacheWrite: Option<string>, batch: bool,
                         additive: map<string, string>, consumed: map<string, string>)

  /** One priced line: `quantity` in tokens or millionths, `rate` in nano-units. */
  datatype Component = Component(kind: string, quantity: int, rate: int, amount: int)

  function Priced(kind: string, quantity: int, rate: int): Component {
    Component(kind, quantity, rate, RoundDivide(quantity * rate, TOKEN_SCALE))
  }

  // ---------- Lookups ----------

  function ParseOptional(text: Option<string>, k: nat): Option<int> {
    match text case None => None case Some(t) => ParseScaled(t, k)
  }

  /** A parser failure leaves zero behind. */
  function OrZero(n: Option<int>): int {
    match n case None => 0 case Some(v) => v
  }

  /** An absent optional count is zero and no error. */
  predicate Readable(text: Option<string>, k: nat) {
    text.None? || ParseOptional(text, k).Some?
  }

  function FirstKey(rates: Rates, keys: seq<string>): Option<string> {
    if keys == [] then None
    else if keys[0] in rates then Some(rates[keys[0]])
    else FirstKey(rates, keys[1..])
  }

  predicate TierApplies(tier: Tier, context: int) {
    var min := ParseScaled(tier.min, 0);
    var max := match tier.max case None => Some(MAX64) case Some(t) => ParseScaled(t, 0);
    min.Some? && max.Some? && min.value <= context <= max.value
  }

  /** The rates of the first tier that applies. */
  function TierRates(tiers: seq<Tier>, context: int): Rates {
    if tiers == [] then map[]
    else if TierApplies(tiers[0], context) then tiers[0].rates
    else TierRates(tiers[1..], context)
  }

  function Overlaid(rates: Rates, overlays: seq<Rates>): Rates {
    if overlays == [] then rates
    else Overlaid(rates, overlays[..|overlays| - 1]) + overlays[|overlays| - 1]
  }

  function Tokens(u: Usage): int {
    OrZero(ParseOptional(u.input, 0))
  }

  function ContextTokens(u: Usage): int {
    if u.context.Some? then OrZero(ParseOptional(u.context, 0)) else Tokens(u)
  }

  function EffectiveRates(p: Price, u: Usage): Rates {
    Overlaid(p.rates + TierRates(p.tiers, ContextTokens(u)), p.overlays)
  }

  const CACHED_KEYS := ["cachedInput", "cacheRead", "cachedInputRate"]
  const WRITE_KEYS := ["cacheWrite", "cacheWriteInput", "cacheWriteRate"]

  function RateOf(rates: Rates, keys: seq<string>): Option<int> {
    ParseOptional(FirstKey(rates, keys), RATE_PLACES)
  }

  // ---------- Token components ----------

  datatype Lines = Lines(components: seq<Component>, incomplete: bool)

  function Line(when: bool, kind: string, quantity: int, rate: Option<int>): seq<Component> {
    if when && rate.Some? then [Priced(kind, quantity, rate.value)] else []
  }

  datatype Counts = Counts(tokens: int, cached: int, write: int, out: int)

  datatype Rated = Rated(input: Option<int>, cached: Option<int>, write: Option<int>, output: Option<int>)

  function CountsOf(u: Usage): Counts {
    Counts(Tokens(u), OrZero(ParseOptional(u.cached, 0)), OrZero(ParseOptional(u.cacheWrite, 0)),
           OrZero(ParseOptional(u.output, 0)))
  }

  function RatedOf(rates: Rates): Rated {
    Rated(RateOf(rates, ["input"]), RateOf(rates, CACHED_KEYS), RateOf(rates, WRITE_KEYS), RateOf(rates, ["output"]))
  }

  /** The counts split the input tokens. */
  predicate CountsFit(n: Counts) {
    n.tokens >= n.cached + n.write && n.cached >= 0 && n.write >= 0
  }

  function CountedLines(n: Counts, r: Rated): seq<Component> {
    Line(CountsFit(n), "input", n.tokens - n.cached - n.write, r.input)
    + Line(n.cached > 0, "cacheRead", n.cached, r.cached)
    + Line(n.out >= 0, "output", n.out, r.output)
    + Line(n.write > 0, "cacheWrite", n.write, r.write)
  }

  /** Every rate that is needed is there. */
  predicate RatesFit(n: Counts, r: Rated) {
    r.input.Some? && r.output.Some? && (n.cached > 0 ==> r.cached.Some?) && (n.write > 0 ==> r.write.Some?)
  }

  function TokenLines(rates: Rates, u: Usage): Lines {
    var n, r := CountsOf(u), RatedOf(rates);
    Lines(CountedLines(n, r),
          || ParseOptional(u.input, 0).None? || n.tokens < 0 || ParseOptional(u.output, 0).None? || n.out < 0
          || !Readable(u.context, 0) || ContextTokens(u) < 0
          || !Readable(u.cached, 0) || n.cached > n.tokens || !Readable(u.cacheWrite, 0)
          || !CountsFit(n) || !RatesFit(n, r))
  }

  // ---------- Additive fees ----------

  function NonNegative(v: int): int {
    if v < 0 then 0 else v
  }

  /** A fee is charged on what exceeds the allowance that is left. */
  function FeeLines(fee: Fee, u: Usage): Lines {
    if fee.kind !in u.additive then Lines([], false)
    else
      var rate, requested := ParseScaled(fee.amount, RATE_PLACES), ParseScaled(u.additive[fee.kind], TOKEN_PLACES);
      var free := ParseScaled(fee.free, TOKEN_PLACES);
      if rate.None? || requested.None? || free.None? then Lines([], true)
      else
        var known := fee.kind in u.consumed;
        var consumed := if known then ParseScaled(u.consumed[fee.kind], TOKEN_PLACES) else Some(0);
        var left := NonNegative(free.value - OrZero(consumed));
        Lines([Priced("fee:" + fee.kind, NonNegative(requested.value - left), rate.value)],
              consumed.None? || (!known && free.value > 0))
  }

  function AllFeeLines(fees: seq<Fee>, u: Usage): Lines {
    if fees == [] then Lines([], false)
    else
      var before, last := AllFeeLines(fees[..|fees| - 1], u), FeeLines(fees[|fees| - 1], u);
      Lines(before.components + last.components, before.incomplete || last.incomplete)
  }

  function UnitLines(p: Price, u: Usage): Lines {
    var quantity, rate := ParseOptional(u.unitQuantity, TOKEN_PLACES), ParseOptional(p.unitAmount, RATE_PLACES);
    if quantity.None? || rate.None? || quantity.value < 0 then Lines([], true)
    else Lines([Priced("unit", quantity.value, rate.value)], false)
  }

  /** The discount that a batch asks for; none when the price is per unit. */
  function Discount(p: Price, u: Usage): Option<int> {
    if u.batch && !p.perUnit then ParseOptional(p.batchDiscount, PERCENT_PLACES) else Some(0)
  }

  function AllLines(p: Price, u: Usage): Lines {
    if p.perUnit then UnitLines(p, u)
    else
      var tokens, fees := TokenLines(EffectiveRates(p, u), u), AllFeeLines(p.fees, u);
      Lines(tokens.components + fees.components, tokens.incomplete || fees.incomplete || Discount(p, u).None?)
  }

  // ---------- Totals ----------

  /** The subtotal adds up the components' printed amounts, as far as they can be parsed. */
  function Subtotal(components: seq<Component>): int {
    if components == [] then 0
    else
      var last := components[|components| - 1];
      Subtotal(components[..|components| - 1])
      + OrZero(ParseScaled(ScaledText(last.amount, RATE_PLACES), RATE_PLACES))
  }

  /** The subtotal after a discount in hundredths of a percent, if one applies. */
  function Discounted(subtotal: int, applies: bool, discount: Option<int>): int {
    if applies && discount.Some? then RoundDivide(subtotal * (10_000 - discount.value), 10_000) else subtotal
  }

  datatype Estimate = Incomplete | Overflow | Available(minor: int, components: seq<Component>)

  function Divisor(minorDigits: nat): int
    requires minorDigits <= 9
  {
    Pow10(9 - minorDigits)
  }

  /** Nano-units in minor units, unless 64 bits are too few. */
  function Concluded(nano: int, minorDigits: nat, components: seq<Component>): Estimate
    requires minorDigits <= 9
  {
    var minor := RoundDivide(nano, Divisor(minorDigits));
    if minor > MAX64 || minor < MIN64 then Overflow else Available(minor, components)
  }

  predicate Complete(p: Price, lines: Lines) {
    !lines.incomplete && !p.gaps && p.minorDigits.Some? && p.minorDigits.value <= 3
  }

  function Estimated(p: Price, u: Usage): Estimate {
    var lines := AllLines(p, u);
    if !Complete(p, lines) then Incomplete
    else
      var nano := Discounted(Subtotal(lines.components), u.batch && !p.perUnit, Discount(p, u));
      Concluded(nano, p.minorDigits.value, lines.components)
  }
}
