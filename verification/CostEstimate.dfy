/** The estimate as the engine computes it, and how far it can be from the exact price. */
module CostEstimate {
  import opened Options
  import opened Decimal
  import opened MoneyText
  import opened CostEngine

  // ---------- The computation ----------

  method SelectTier(tiers: seq<Tier>, context: int) returns (rates: Rates)
    ensures rates == TierRates(tiers, context)
  {
    rates := map[];
    var i := 0;
    while i < |tiers|
      invariant i <= |tiers| && rates == map[]
      invariant TierRates(tiers[i..], context) == TierRates(tiers, context)
    {
      if TierApplies(tiers[i], context) {
        rates := tiers[i].rates;
        return;
      }
      assert tiers[i..][1..] == tiers[i + 1..];
      i := i + 1;
    }
  }

  method MergeRates(base: Rates, overlays: seq<Rates>) returns (rates: Rates)
    ensures rates == Overlaid(base, overlays)
  {
    rates := base;
    for i := 0 to |overlays|
      invariant rates == Overlaid(base, overlays[..i])
    {
      assert overlays[..i + 1][..i] == overlays[..i];
      rates := rates + overlays[i];
    }
    assert overlays[..|overlays|] == overlays;
  }

  method AddFees(fees: seq<Fee>, u: Usage) returns (lines: Lines)
    ensures lines == AllFeeLines(fees, u)
  {
    lines := Lines([], false);
    for i := 0 to |fees|
      invariant lines == AllFeeLines(fees[..i], u)
    {
      assert fees[..i + 1][..i] == fees[..i];
      var more := FeeLines(fees[i], u);
      lines := Lines(lines.components + more.components, lines.incomplete || more.incomplete);
    }
    assert fees[..|fees|] == fees;
  }

  /** Prints each amount and reads it back, skipping what cannot be read. */
  method AddUp(components: seq<Component>) returns (subtotal: int)
    ensures subtotal == Subtotal(components)
  {
    subtotal := 0;
    for i := 0 to |components|
      invariant subtotal == Subtotal(components[..i])
    {
      assert components[..i + 1][..i] == components[..i];
      var text := ScaledToText(components[i].amount, RATE_PLACES);
      var amount := ParseScaledText(text, RATE_PLACES);
      if amount.Some? {
        subtotal := subtotal + amount.value;
      }
    }
    assert components[..|components|] == components;
  }

  method CollectLines(p: Price, u: Usage) returns (lines: Lines)
    ensures lines == AllLines(p, u)
  {
    if p.perUnit {
      return UnitLines(p, u);
    }
    var tier := SelectTier(p.tiers, ContextTokens(u));
    var rates := MergeRates(p.rates + tier, p.overlays);
    lines := TokenLines(rates, u);
    var fees := AddFees(p.fees, u);
    lines := Lines(lines.components + fees.components, lines.incomplete || fees.incomplete || Discount(p, u).None?);
  }

  method ApplyDiscount(subtotal: int, applies: bool, discount: Option<int>) returns (nano: int)
    ensures nano == Discounted(subtotal, applies, discount)
  {
    nano := subtotal;
    if applies && discount.Some? {
      nano := RoundDivide(subtotal * (10_000 - discount.value), 10_000);
    }
  }

  method EstimatePrice(p: Price, u: Usage) returns (e: Estimate)
    ensures e == Estimated(p, u)
  {
    var lines := CollectLines(p, u);
    var subtotal := AddUp(lines.components);
    var nano := ApplyDiscount(subtotal, u.batch && !p.perUnit, Discount(p, u));
    if !Complete(p, lines) {
      return Incomplete;
    }
    e := Concluded(nano, p.minorDigits.value, lines.components);
  }

  // ---------- The subtotal ----------

  /** The amount's text can be read back. */
  predicate Printable(c: Component) {
    Abs(c.amount) / Pow10(RATE_PLACES) <= MAX64
  }

  function Total(components: seq<Component>): int {
    if components == [] then 0 else Total(components[..|components| - 1]) + components[|components| - 1].amount
  }

  /** What printing and parsing loses: the amounts beyond 64 bits of whole units. */
  function Unprinted(components: seq<Component>): int {
    if components == [] then 0
    else
      var last := components[|components| - 1];
      Unprinted(components[..|components| - 1]) + if Printable(last) then 0 else last.amount
  }

  lemma {:induction false} SubtotalLosesUnprinted(components: seq<Component>)
    ensures Subtotal(components) == Total(components) - Unprinted(components)
  {
    if components != [] {
      SubtotalLosesUnprinted(components[..|components| - 1]);
      ParseUndoesPrint(components[|components| - 1].amount, RATE_PLACES);
    }
  }

  lemma {:induction false} UnprintedSign(components: seq<Component>)
    requires forall c :: c in components ==> c.amount >= 0
    ensures Unprinted(components) >= 0
    ensures Unprinted(components) == 0 <==> forall c :: c in components ==> Printable(c)
  {
    if components != [] {
      var init, last := components[..|components| - 1], components[|components| - 1];
      assert components == init + [last];
      UnprintedSign(init);
      assert last in components;
      if !Printable(last) {
        assert last.amount != 0;
      }
    }
  }

  /** With non-negative amounts the subtotal is the exact sum if and only if the whole part
      of every amount fits 64 bits. */
  lemma SubtotalExactIff(components: seq<Component>)
    requires forall c :: c in components ==> c.amount >= 0
    ensures Subtotal(components) == Total(components) <==> forall c :: c in components ==> Printable(c)
  {
    SubtotalLosesUnprinted(components);
    UnprintedSign(components);
  }

  // ---------- The error bound ----------

  const PERCENT_SCALE := 10_000

  /** The price without any rounding, in millionths of a nano-unit. */
  function Exact(components: seq<Component>): int {
    if components == [] then 0
    else
      var last := components[|components| - 1];
      Exact(components[..|components| - 1]) + last.quantity * last.rate
  }

  predicate Within(x: int, bound: int) {
    -bound <= x <= bound
  }

  predicate IsPriced(c: Component) {
    c.amount == RoundDivide(c.quantity * c.rate, TOKEN_SCALE)
  }

  /** Half a nano-unit per component. */
  lemma {:induction false} TotalIsNear(components: seq<Component>)
    requires forall c :: c in components ==> IsPriced(c)
    ensures Within(2 * (Total(components) * TOKEN_SCALE - Exact(components)), |components| * TOKEN_SCALE)
  {
    if components != [] {
      var init, last := components[..|components| - 1], components[|components| - 1];
      assert components == init + [last];
      TotalIsNear(init);
      assert last in components;
      RoundDivideIsHalfAway(last.quantity * last.rate, TOKEN_SCALE);
    }
  }

  lemma {:induction false} AllPrintable(components: seq<Component>)
    requires forall c :: c in components ==> Printable(c)
    ensures Unprinted(components) == 0
  {
    if components != [] {
      AllPrintable(components[..|components| - 1]);
      assert components[|components| - 1] in components;
    }
  }

  lemma SubtotalIsNear(components: seq<Component>)
    requires forall c :: c in components ==> IsPriced(c) && Printable(c)
    ensures Within(2 * (Subtotal(components) * TOKEN_SCALE - Exact(components)), |components| * TOKEN_SCALE)
  {
    TotalIsNear(components);
    SubtotalLosesUnprinted(components);
    AllPrintable(components);
  }

  /** What remains after the discount, in hundredths of a percent. */
  function Share(applies: bool, discount: Option<int>): int {
    if applies && discount.Some? then PERCENT_SCALE - discount.value else PERCENT_SCALE
  }

  lemma DiscountIsNear(subtotal: int, applies: bool, discount: Option<int>)
    ensures Within(2 * (Discounted(subtotal, applies, discount) * PERCENT_SCALE - subtotal * Share(applies, discount)),
                   PERCENT_SCALE)
  {
    if applies && discount.Some? {
      RoundDivideIsHalfAway(subtotal * (10_000 - discount.value), 10_000);
    }
  }

  lemma ScaleWithin(x: int, bound: int, share: int)
    requires Within(x, bound) && share >= 0
    ensures Within(x * share, bound * share)
  {}

  /** Chains the three roundings; everything is in halves of 10^-10 nano-units. */
  lemma ChainRoundings(exact: int, n: nat, subtotal: int, share: int, nano: int, minor: int, d: int)
    requires Within(2 * (subtotal * TOKEN_SCALE - exact), n * TOKEN_SCALE)
    requires share >= 0 && Within(2 * (nano * PERCENT_SCALE - subtotal * share), PERCENT_SCALE)
    requires Within(2 * (minor - nano), d)
    ensures Within(2 * (minor * TOKEN_SCALE * PERCENT_SCALE - exact * share),
                   (d + 1) * TOKEN_SCALE * PERCENT_SCALE + n * share * TOKEN_SCALE)
  {
    ScaleWithin(2 * (subtotal * TOKEN_SCALE - exact), n * TOKEN_SCALE, share);
    Regroup(subtotal, exact, n, share);
  }

  lemma Regroup(subtotal: int, exact: int, n: int, share: int)
    ensures 2 * (subtotal * TOKEN_SCALE - exact) * share == 2 * ((subtotal * share) * TOKEN_SCALE - exact * share)
    ensures n * TOKEN_SCALE * share == n * share * TOKEN_SCALE
  {}

  lemma {:induction false} FeesArePriced(fees: seq<Fee>, u: Usage)
    ensures forall c :: c in AllFeeLines(fees, u).components ==> IsPriced(c)
  {
    if fees != [] {
      FeesArePriced(fees[..|fees| - 1], u);
    }
  }

  lemma CountedLinesArePriced(n: Counts, r: Rated)
    ensures forall c :: c in CountedLines(n, r) ==> IsPriced(c)
  {}

  lemma LinesArePriced(p: Price, u: Usage)
    ensures forall c :: c in AllLines(p, u).components ==> IsPriced(c)
  {
    FeesArePriced(p.fees, u);
    CountedLinesArePriced(CountsOf(u), RatedOf(EffectiveRates(p, u)));
  }

  /** The amount in minor units against the exact price of its components. Divided by twice
      10^10, the bound reads: half a minor unit, half a nano-unit for the discount step, and
      half a nano-unit per component (as discounted). */
  ghost predicate NearExact(minor: int, d: int, components: seq<Component>, share: int) {
    Within(2 * (minor * d * TOKEN_SCALE * PERCENT_SCALE - Exact(components) * share),
           (d + 1) * TOKEN_SCALE * PERCENT_SCALE + |components| * share * TOKEN_SCALE)
  }

  lemma LinesAreNear(components: seq<Component>, applies: bool, discount: Option<int>, d: int)
    requires d > 0 && discount.Some? && 0 <= discount.value <= PERCENT_SCALE
    requires forall c :: c in components ==> IsPriced(c) && Printable(c)
    ensures NearExact(RoundDivide(Discounted(Subtotal(components), applies, discount), d), d, components,
                      Share(applies, discount))
  {
    var subtotal, share := Subtotal(components), Share(applies, discount);
    var nano := Discounted(subtotal, applies, discount);
    SubtotalIsNear(components);
    DiscountIsNear(subtotal, applies, discount);
    RoundDivideIsHalfAway(nano, d);
    ChainRoundings(Exact(components), |components|, subtotal, share, nano, RoundDivide(nano, d) * d, d);
  }

  // ---------- When the amounts fit ----------

  /** 64 bits of whole units, in millionths of a nano-unit. */
  const PRODUCT_LIMIT := (MAX64 + 1) * 1_000_000_000 * TOKEN_SCALE

  /** The product is below the limit even after rounding. */
  predicate Fits(quantity: int, rate: int) {
    Abs(quantity * rate) + TOKEN_SCALE / 2 < PRODUCT_LIMIT
  }

  predicate LineFits(when: bool, quantity: int, rate: Option<int>) {
    when && rate.Some? ==> Fits(quantity, rate.value)
  }

  predicate CountsTimesRatesFit(n: Counts, r: Rated) {
    && LineFits(CountsFit(n), n.tokens - n.cached - n.write, r.input)
    && LineFits(n.cached > 0, n.cached, r.cached)
    && LineFits(n.out >= 0, n.out, r.output)
    && LineFits(n.write > 0, n.write, r.write)
  }

  /** What is charged for a fee beyond the allowance that is left. */
  function Excess(fee: Fee, u: Usage, requested: int, free: int): int {
    var consumed := if fee.kind in u.consumed then OrZero(ParseScaled(u.consumed[fee.kind], TOKEN_PLACES)) else 0;
    NonNegative(requested - NonNegative(free - consumed))
  }

  predicate FeeFits(fee: Fee, u: Usage) {
    fee.kind in u.additive ==>
      match (ParseScaled(fee.amount, RATE_PLACES), ParseScaled(u.additive[fee.kind], TOKEN_PLACES), ParseScaled(fee.free, TOKEN_PLACES))
      case (Some(rate), Some(requested), Some(free)) => Fits(Excess(fee, u, requested, free), rate)
      case _ => true
  }

  predicate FeesFit(fees: seq<Fee>, u: Usage) {
    forall i :: 0 <= i < |fees| ==> FeeFits(fees[i], u)
  }

  predicate UnitsFit(p: Price, u: Usage) {
    match (ParseOptional(u.unitQuantity, TOKEN_PLACES), ParseOptional(p.unitAmount, RATE_PLACES))
    case (Some(quantity), Some(rate)) => quantity >= 0 ==> Fits(quantity, rate)
    case _ => true
  }

  /** Each quantity times its rate is below the limit. */
  predicate ProductsFit(p: Price, u: Usage) {
    if p.perUnit then UnitsFit(p, u)
    else CountsTimesRatesFit(CountsOf(u), RatedOf(EffectiveRates(p, u))) && FeesFit(p.fees, u)
  }

  lemma QuotientBelow(x: nat, d: nat, b: nat)
    requires d > 0
    ensures x / d < b <==> x < b * d
  {
    DivisionBounds(x, d);
    if x / d < b {
      assert (x / d + 1) * d <= b * d;
    } else {
      assert b * d <= (x / d) * d;
    }
  }

  lemma NanoScale()
    ensures Pow10(RATE_PLACES) == 1_000_000_000
  {
    assert Pow10(3) == 1000;
    Pow10Split(3, 3);
    Pow10Split(3, 6);
  }

  /** An amount can be read back exactly when its product fits. */
  lemma PrintableIff(c: Component)
    requires IsPriced(c)
    ensures Printable(c) <==> Fits(c.quantity, c.rate)
  {
    NanoScale();
    var product := Abs(c.quantity * c.rate);
    QuotientBelow(product + TOKEN_SCALE / 2, TOKEN_SCALE, (MAX64 + 1) * 1_000_000_000);
    QuotientBelow(Abs(c.amount), 1_000_000_000, MAX64 + 1);
  }

  ghost predicate AllFit(components: seq<Component>) {
    forall c :: c in components ==> Fits(c.quantity, c.rate)
  }

  lemma AllFitConcat(a: seq<Component>, b: seq<Component>)
    ensures AllFit(a + b) <==> AllFit(a) && AllFit(b)
  {
    assert forall c :: c in a ==> c in a + b;
    assert forall c :: c in b ==> c in a + b;
  }

  lemma LineFitsIff(when: bool, kind: string, quantity: int, rate: Option<int>)
    ensures AllFit(Line(when, kind, quantity, rate)) <==> LineFits(when, quantity, rate)
  {
    if when && rate.Some? {
      var c := Priced(kind, quantity, rate.value);
      assert c in Line(when, kind, quantity, rate);
    }
  }

  lemma CountedLinesFitIff(n: Counts, r: Rated)
    ensures AllFit(CountedLines(n, r)) <==> CountsTimesRatesFit(n, r)
  {
    var a, b := Line(CountsFit(n), "input", n.tokens - n.cached - n.write, r.input), Line(n.cached > 0, "cacheRead", n.cached, r.cached);
    var c, d := Line(n.out >= 0, "output", n.out, r.output), Line(n.write > 0, "cacheWrite", n.write, r.write);
    LineFitsIff(CountsFit(n), "input", n.tokens - n.cached - n.write, r.input);
    LineFitsIff(n.cached > 0, "cacheRead", n.cached, r.cached);
    LineFitsIff(n.out >= 0, "output", n.out, r.output);
    LineFitsIff(n.write > 0, "cacheWrite", n.write, r.write);
    hide Line, LineFits, AllFit;
    AllFitConcat(a, b);
    AllFitConcat(a + b, c);
    AllFitConcat(a + b + c, d);
  }

  lemma FeeLinesFitIff(fee: Fee, u: Usage)
    ensures AllFit(FeeLines(fee, u).components) <==> FeeFits(fee, u)
  {
    hide Fits, ParseScaled;
    var lines := FeeLines(fee, u).components;
    if lines != [] {
      assert lines[0] in lines;
    }
  }

  lemma LastFeeLines(init: seq<Fee>, last: Fee, u: Usage)
    ensures AllFeeLines(init + [last], u).components == AllFeeLines(init, u).components + FeeLines(last, u).components
  {
    hide FeeLines;
    assert (init + [last])[..|init|] == init;
  }

  lemma NoFeesFit(u: Usage)
    ensures AllFit(AllFeeLines([], u).components) && FeesFit([], u)
  {
    hide Fits, FeeFits;
  }

  lemma OneMoreFee(init: seq<Fee>, last: Fee, u: Usage)
    requires AllFit(AllFeeLines(init, u).components) <==> FeesFit(init, u)
    ensures AllFit(AllFeeLines(init + [last], u).components) <==> FeesFit(init + [last], u)
  {
    hide FeeFits, FeeLines, AllFeeLines, FeesFit, AllFit, Fits;
    FeeLinesFitIff(last, u);
    LastFeeLines(init, last, u);
    AllFitConcat(AllFeeLines(init, u).components, FeeLines(last, u).components);
    OneMoreFits(init, last, u);
  }

  lemma {:induction false} AllFeeLinesFitIff(fees: seq<Fee>, u: Usage)
    ensures AllFit(AllFeeLines(fees, u).components) <==> FeesFit(fees, u)
  {
    hide FeesFit, AllFit, AllFeeLines, Fits, FeeFits, FeeLines, ParseScaled;
    if fees == [] {
      NoFeesFit(u);
    } else {
      AllFeeLinesFitIff(fees[..|fees| - 1], u);
      OneMoreFee(fees[..|fees| - 1], fees[|fees| - 1], u);
      assert fees[..|fees| - 1] + [fees[|fees| - 1]] == fees;
    }
  }

  lemma OneMoreFits(init: seq<Fee>, last: Fee, u: Usage)
    ensures FeesFit(init + [last], u) <==> FeesFit(init, u) && FeeFits(last, u)
  {
    hide FeeFits;
    var fees := init + [last];
    assert forall i :: 0 <= i < |init| ==> fees[i] == init[i];
    assert fees[|init|] == last;
  }

  /** Every amount can be read back if and only if each quantity times its rate fits. */
  lemma AllPrintableIff(p: Price, u: Usage)
    ensures (forall c :: c in AllLines(p, u).components ==> Printable(c)) <==> ProductsFit(p, u)
  {
    var components := AllLines(p, u).components;
    LinesArePriced(p, u);
    forall c | c in components
      ensures Printable(c) <==> Fits(c.quantity, c.rate)
    {
      PrintableIff(c);
    }
    hide Printable, Fits, IsPriced;
    if p.perUnit {
      if components != [] {
        assert components[0] in components;
      }
    } else {
      CountedLinesFitIff(CountsOf(u), RatedOf(EffectiveRates(p, u)));
      AllFeeLinesFitIff(p.fees, u);
      AllFitConcat(TokenLines(EffectiveRates(p, u), u).components, AllFeeLines(p.fees, u).components);
    }
  }

  // ---------- The estimate is near exactly then ----------

  /** The available amount against the exact price of its lines, after the discount. */
  ghost predicate EstimateNear(p: Price, u: Usage)
    requires Estimated(p, u).Available? && Discount(p, u).Some?
  {
    NearExact(Estimated(p, u).minor, Divisor(p.minorDigits.value), AllLines(p, u).components,
              Share(u.batch && !p.perUnit, Discount(p, u)))
  }

  /** Every available estimate with a discount between 0 and 100 percent is near, provided
      each quantity times its rate fits. */
  lemma EstimateIsNear(p: Price, u: Usage)
    requires Estimated(p, u).Available?
    requires Discount(p, u).Some? && 0 <= Discount(p, u).value <= PERCENT_SCALE
    ensures ProductsFit(p, u) ==> EstimateNear(p, u)
  {
    if ProductsFit(p, u) {
      AllPrintableIff(p, u);
      LinesArePriced(p, u);
      LinesAreNear(AllLines(p, u).components, u.batch && !p.perUnit, Discount(p, u), Divisor(p.minorDigits.value));
    }
  }

  predicate NotNegative(rate: Option<int>) {
    rate.Some? ==> rate.value >= 0
  }

  /** No rate, fee or unit amount is negative. */
  predicate RatesNotNegative(p: Price, u: Usage) {
    && NotNegative(ParseOptional(p.unitAmount, RATE_PLACES))
    && (forall i :: 0 <= i < |p.fees| ==> NotNegative(ParseScaled(p.fees[i].amount, RATE_PLACES)))
    && var r := RatedOf(EffectiveRates(p, u));
       NotNegative(r.input) && NotNegative(r.cached) && NotNegative(r.write) && NotNegative(r.output)
  }

  ghost predicate AmountsNotNegative(components: seq<Component>) {
    forall c :: c in components ==> c.amount >= 0
  }

  lemma PricedNotNegative(kind: string, quantity: int, rate: int)
    requires quantity >= 0 && rate >= 0
    ensures Priced(kind, quantity, rate).amount >= 0
  {
    assert quantity * rate >= 0;
  }

  lemma LineNotNegative(when: bool, kind: string, quantity: int, rate: Option<int>)
    requires NotNegative(rate) && (when ==> quantity >= 0)
    ensures AmountsNotNegative(Line(when, kind, quantity, rate))
  {
    if when && rate.Some? {
      PricedNotNegative(kind, quantity, rate.value);
    }
  }

  lemma CountedLinesNotNegative(n: Counts, r: Rated)
    requires NotNegative(r.input) && NotNegative(r.cached) && NotNegative(r.write) && NotNegative(r.output)
    ensures AmountsNotNegative(CountedLines(n, r))
  {
    LineNotNegative(CountsFit(n), "input", n.tokens - n.cached - n.write, r.input);
    LineNotNegative(n.cached > 0, "cacheRead", n.cached, r.cached);
    LineNotNegative(n.out >= 0, "output", n.out, r.output);
    LineNotNegative(n.write > 0, "cacheWrite", n.write, r.write);
    hide Line;
  }

  lemma FeeLinesNotNegative(fee: Fee, u: Usage)
    requires NotNegative(ParseScaled(fee.amount, RATE_PLACES))
    ensures AmountsNotNegative(FeeLines(fee, u).components) && |FeeLines(fee, u).components| <= 1
  {
    hide ParseScaled, RoundDivide;
    var lines := FeeLines(fee, u).components;
    if lines != [] {
      PricedNotNegative(lines[0].kind, lines[0].quantity, lines[0].rate);
    }
  }

  lemma {:induction false} AllFeeLinesNotNegative(fees: seq<Fee>, u: Usage)
    requires forall i :: 0 <= i < |fees| ==> NotNegative(ParseScaled(fees[i].amount, RATE_PLACES))
    ensures AmountsNotNegative(AllFeeLines(fees, u).components) && |AllFeeLines(fees, u).components| <= |fees|
  {
    if fees != [] {
      AllFeeLinesNotNegative(fees[..|fees| - 1], u);
      FeeLinesNotNegative(fees[|fees| - 1], u);
      hide FeeLines, NotNegative, ParseScaled;
    }
  }

  lemma LinesNotNegative(p: Price, u: Usage)
    requires RatesNotNegative(p, u)
    ensures AmountsNotNegative(AllLines(p, u).components) && |AllLines(p, u).components| <= |p.fees| + 4
  {
    if p.perUnit {
      var lines := UnitLines(p, u).components;
      if lines != [] {
        PricedNotNegative("unit", lines[0].quantity, lines[0].rate);
      }
    } else {
      CountedLinesNotNegative(CountsOf(u), RatedOf(EffectiveRates(p, u)));
      AllFeeLinesNotNegative(p.fees, u);
    }
  }

  /** One amount beyond 64 bits of whole units is lost whole. */
  lemma {:induction false} LostWhole(components: seq<Component>, c: Component)
    requires AmountsNotNegative(components) && c in components && !Printable(c)
    ensures Unprinted(components) >= (MAX64 + 1) * 1_000_000_000
  {
    var init, last := components[..|components| - 1], components[|components| - 1];
    assert components == init + [last];
    assert forall x :: x in init ==> x in components;
    assert last in components;
    UnprintedSign(init);
    if c in init {
      LostWhole(init, c);
    } else {
      NanoScale();
      QuotientBelow(c.amount, 1_000_000_000, MAX64 + 1);
    }
  }

  /** What is lost is far more than any rounding. */
  lemma LossShows(exact: int, total: int, subtotal: int, n: nat, share: int, nano: int, minor: int, d: int)
    requires Within(2 * (total * TOKEN_SCALE - exact), n * TOKEN_SCALE)
    requires share > 0 && Within(2 * (nano * PERCENT_SCALE - subtotal * share), PERCENT_SCALE)
    requires 0 < d <= 1_000_000_000 && Within(2 * (minor - nano), d)
    requires n <= MAX64 && total - subtotal >= (MAX64 + 1) * 1_000_000_000
    ensures !Within(2 * (minor * TOKEN_SCALE * PERCENT_SCALE - exact * share), (d + 1) * TOKEN_SCALE * PERCENT_SCALE + n * share * TOKEN_SCALE)
  {
    ScaleWithin(2 * (total * TOKEN_SCALE - exact), n * TOKEN_SCALE, share);
    Regroup(total, exact, n, share);
    ShareOfLoss(total, subtotal, n, share);
    LossAfterScaling(exact * share, subtotal * share, (total - subtotal) * share, n * share, nano, minor, d);
  }

  lemma ShareOfLoss(total: int, subtotal: int, n: nat, share: int)
    requires share > 0 && total - subtotal >= n
    ensures total * share == subtotal * share + (total - subtotal) * share
    ensures (total - subtotal) * share - n * share >= total - subtotal - n
  {
    Spread(subtotal, total - subtotal, share);
    Spread(n, total - subtotal - n, share);
    AtLeastOnce(total - subtotal - n, share);
  }

  lemma Spread(a: int, b: int, share: int)
    ensures (a + b) * share == a * share + b * share
  {}

  lemma AtLeastOnce(x: nat, share: int)
    requires share > 0
    ensures x * share >= x
  {}

  lemma LossAfterScaling(exact: int, subtotal: int, lost: int, n: int, nano: int, minor: int, d: int)
    requires 2 * ((subtotal + lost) * 1_000_000 - exact) <= n * 1_000_000
    requires 2 * (nano * 10_000 - subtotal) <= 10_000
    requires d <= 1_000_000_000 && 2 * (minor - nano) <= d
    requires lost - n >= 100_000_000_000_000
    ensures 2 * (minor * 10_000_000_000 - exact) < -((d + 1) * 10_000_000_000 + n * 1_000_000)
  {}

  lemma DivisorBound(minorDigits: nat)
    requires minorDigits <= 3
    ensures 0 < Divisor(minorDigits) <= 1_000_000_000
  {
    NanoScale();
    Pow10Split(minorDigits, 9 - minorDigits);
    assert Pow10(minorDigits) >= 1;
    assert Pow10(minorDigits) * Pow10(9 - minorDigits) >= Pow10(9 - minorDigits);
  }

  /** With no negative rate, a discount below 100 percent and fewer fees than 64 bits can count,
      an available estimate is near the exact price if and only if each quantity times its
      rate fits. */
  lemma EstimateIsNearIff(p: Price, u: Usage)
    requires Estimated(p, u).Available?
    requires Discount(p, u).Some? && 0 <= Discount(p, u).value < PERCENT_SCALE
    requires RatesNotNegative(p, u) && |p.fees| + 4 <= MAX64
    ensures EstimateNear(p, u) <==> ProductsFit(p, u)
  {
    EstimateIsNear(p, u);
    if !ProductsFit(p, u) {
      EstimatedMinor(p, u);
      AllPrintableIff(p, u);
      LinesNotNegative(p, u);
      LinesArePriced(p, u);
      hide Estimated, AllLines, Discount, RatesNotNegative, ProductsFit, Printable, NearExact, Subtotal, Discounted, RoundDivide;
      var components := AllLines(p, u).components;
      var c :| c in components && !Printable(c);
      LostWhole(components, c);
      UnfitIsFar(components, u.batch && !p.perUnit, Discount(p, u), p.minorDigits.value);
    }
  }

  lemma EstimatedMinor(p: Price, u: Usage)
    requires Estimated(p, u).Available?
    ensures p.minorDigits.Some? && p.minorDigits.value <= 3
    ensures Estimated(p, u).minor
            == RoundDivide(Discounted(Subtotal(AllLines(p, u).components), u.batch && !p.perUnit, Discount(p, u)),
                           Divisor(p.minorDigits.value))
  {}

  lemma UnfitIsFar(components: seq<Component>, applies: bool, discount: Option<int>, minorDigits: nat)
    requires forall c :: c in components ==> IsPriced(c)
    requires minorDigits <= 3 && |components| <= MAX64
    requires discount.Some? && 0 <= discount.value < PERCENT_SCALE
    requires Unprinted(components) >= (MAX64 + 1) * 1_000_000_000
    ensures
      var d := Divisor(minorDigits);
      !NearExact(RoundDivide(Discounted(Subtotal(components), applies, discount), d), d, components, Share(applies, discount))
  {
    var d, subtotal, share := Divisor(minorDigits), Subtotal(components), Share(applies, discount);
    var nano := Discounted(subtotal, applies, discount);
    DivisorBound(minorDigits);
    TotalIsNear(components);
    SubtotalLosesUnprinted(components);
    DiscountIsNear(subtotal, applies, discount);
    RoundDivideIsHalfAway(nano, d);
    LossShows(Exact(components), Total(components), subtotal, |components|, share, nano, RoundDivide(nano, d) * d, d);
  }

  // ---------- A huge usage for nothing ----------

  const HUGE_TOKENS := 9_000_000_000_000_000_000
  const HUGE_RATE := 10_000_000_000_000_000

  /** Nine quintillion output tokens at ten million units per million tokens. */
  function HugePrice(): Price {
    Price(false, None, map["input" := ScaledText(0, RATE_PLACES), "output" := ScaledText(HUGE_RATE, RATE_PLACES)], [], [], None, [],
          Some(2), false)
  }

  function HugeUsage(): Usage {
    Usage(None, Some(ScaledText(0, 0)), Some(ScaledText(HUGE_TOKENS, 0)), None, None, None, false, map[], map[])
  }

  /** Two rates, under their keys. */
  lemma OnlyTwoRates(input: string, output: string)
    ensures
      var rates := map["input" := input, "output" := output];
      && FirstKey(rates, ["input"]) == Some(input) && FirstKey(rates, ["output"]) == Some(output)
      && FirstKey(rates, CACHED_KEYS) == None && FirstKey(rates, WRITE_KEYS) == None
  {
    var rates := map["input" := input, "output" := output];
    forall key | key in CACHED_KEYS || key in WRITE_KEYS
      ensures key !in rates
    {
      assert |key| > 6;
    }
    NoneOf(rates, CACHED_KEYS);
    NoneOf(rates, WRITE_KEYS);
  }

  lemma {:induction false} NoneOf(rates: Rates, keys: seq<string>)
    requires forall key :: key in keys ==> key !in rates
    ensures FirstKey(rates, keys) == None
  {
    if keys != [] {
      assert keys[0] in keys;
      NoneOf(rates, keys[1..]);
    }
  }

  lemma RatedTwo(input: string, output: string)
    ensures RatedOf(map["input" := input, "output" := output])
            == Rated(ParseScaled(input, RATE_PLACES), None, None, ParseScaled(output, RATE_PLACES))
  {
    OnlyTwoRates(input, output);
    hide ParseScaled, FirstKey;
  }

  lemma PlainRates(p: Price, u: Usage)
    requires p.tiers == [] && p.overlays == []
    ensures EffectiveRates(p, u) == p.rates
  {
    assert p.rates + map[] == p.rates;
  }

  lemma HugeRates()
    ensures RatedOf(EffectiveRates(HugePrice(), HugeUsage())) == Rated(Some(0), None, None, Some(HUGE_RATE))
  {
    NanoScale();
    ParseUndoesPrint(0, RATE_PLACES);
    ParseUndoesPrint(HUGE_RATE, RATE_PLACES);
    hide ParseScaled, ScaledText, FirstKey, Pow10, ContextTokens, EffectiveRates, RatedOf;
    RatedTwo(ScaledText(0, RATE_PLACES), ScaledText(HUGE_RATE, RATE_PLACES));
    PlainRates(HugePrice(), HugeUsage());
  }

  lemma HugeCounts()
    ensures CountsOf(HugeUsage()) == Counts(0, 0, 0, HUGE_TOKENS)
    ensures ParseOptional(HugeUsage().input, 0) == Some(0) && ParseOptional(HugeUsage().output, 0) == Some(HUGE_TOKENS)
  {
    assert Pow10(0) == 1;
    ParseUndoesPrint(0, 0);
    ParseUndoesPrint(HUGE_TOKENS, 0);
    hide ParseScaled, ScaledText;
  }

  lemma HugeLines()
    ensures AllLines(HugePrice(), HugeUsage())
            == Lines([Priced("input", 0, 0), Priced("output", HUGE_TOKENS, HUGE_RATE)], false)
  {
    HugeRates();
    HugeCounts();
    hide ParseScaled, ScaledText, RoundDivide, EffectiveRates, RatedOf, CountsOf;
    assert AllFeeLines([], HugeUsage()) == Lines([], false);
  }

  /** A line of nothing, and one whose product does not fit. */
  lemma UnfitSums(quantity: int, rate: int)
    requires !Fits(quantity, rate)
    ensures
      var components := [Priced("input", 0, 0), Priced("output", quantity, rate)];
      && Subtotal(components) == 0 && Exact(components) == quantity * rate && !Printable(components[1])
  {
    var a, b := Priced("input", 0, 0), Priced("output", quantity, rate);
    NanoScale();
    PrintableIff(b);
    SubtotalLosesUnprinted([a, b]);
    hide Fits, ParseScaled, ScaledText, Subtotal, Pow10;
    assert [a, b][..1] == [a] && [a][..0] == [];
    assert a.amount == 0;
    assert Total([a]) == 0 && Unprinted([a]) == 0;
    assert Total([a, b]) == b.amount && Unprinted([a, b]) == b.amount;
    assert Exact([a]) == 0;
  }

  lemma HugeDoesNotFit()
    ensures !Fits(HUGE_TOKENS, HUGE_RATE)
  {
    assert HUGE_TOKENS * HUGE_RATE == 90_000_000_000_000_000_000_000_000_000_000_000;
  }

  lemma NothingConcludes(components: seq<Component>, minorDigits: nat)
    requires minorDigits <= 9
    ensures Concluded(0, minorDigits, components) == Available(0, components)
  {
    assert Divisor(minorDigits) / 2 / Divisor(minorDigits) == 0;
  }

  lemma UnfitIsFree(p: Price, u: Usage, quantity: int, rate: int)
    requires AllLines(p, u) == Lines([Priced("input", 0, 0), Priced("output", quantity, rate)], false)
    requires !Fits(quantity, rate) && !u.batch && !p.gaps && p.minorDigits.Some? && p.minorDigits.value <= 3
    ensures Estimated(p, u) == Available(0, AllLines(p, u).components)
    ensures Exact(AllLines(p, u).components) == quantity * rate && !ProductsFit(p, u)
  {
    UnfitSums(quantity, rate);
    AllPrintableIff(p, u);
    hide AllLines, Subtotal, Exact, Printable, Fits, ProductsFit, ParseScaled, ScaledText, Divisor, Priced, RoundDivide;
    var components := AllLines(p, u).components;
    assert components[1] in components;
    NothingConcludes(components, p.minorDigits.value);
  }

  /** An amount that does not fit is left out silently: the engine offers this usage as free,
      whatever its exact price. */
  lemma HugeUsageIsFree()
    ensures Estimated(HugePrice(), HugeUsage()).Available? && Estimated(HugePrice(), HugeUsage()).minor == 0
    ensures Exact(AllLines(HugePrice(), HugeUsage()).components) == HUGE_TOKENS * HUGE_RATE
    ensures !ProductsFit(HugePrice(), HugeUsage())
  {
    HugeLines();
    HugeDoesNotFit();
    UnfitIsFree(HugePrice(), HugeUsage(), HUGE_TOKENS, HUGE_RATE);
    hide AllLines, Estimated, Exact, Fits, ProductsFit, ParseScaled, ScaledText;
  }

  // ---------- Where the tokens go ----------

  predicate TakesInput(c: Component) {
    c.kind == "input" || c.kind == "cacheRead" || c.kind == "cacheWrite"
  }

  function InputQuantity(components: seq<Component>): int {
    if components == [] then 0
    else
      var last := components[|components| - 1];
      InputQuantity(components[..|components| - 1]) + if TakesInput(last) then last.quantity else 0
  }

  lemma {:induction false} InputQuantityConcat(a: seq<Component>, b: seq<Component>)
    ensures InputQuantity(a + b) == InputQuantity(a) + InputQuantity(b)
  {
    if b == [] {
      assert a + b == a;
    } else {
      assert (a + b)[..|a + b| - 1] == a + b[..|b| - 1];
      InputQuantityConcat(a, b[..|b| - 1]);
    }
  }

  lemma LineQuantity(when: bool, kind: string, quantity: int, rate: Option<int>)
    ensures InputQuantity(Line(when, kind, quantity, rate))
            == if when && rate.Some? && TakesInput(Priced(kind, quantity, 0)) then quantity else 0
  {
    var line := Line(when, kind, quantity, rate);
    if line != [] {
      assert line[..0] == [];
    }
  }

  lemma {:induction false} FeesTakeNoInput(fees: seq<Fee>, u: Usage)
    ensures InputQuantity(AllFeeLines(fees, u).components) == 0
  {
    if fees != [] {
      var fee := fees[|fees| - 1];
      var before, lines := AllFeeLines(fees[..|fees| - 1], u).components, FeeLines(fee, u).components;
      FeesTakeNoInput(fees[..|fees| - 1], u);
      InputQuantityConcat(before, lines);
      if lines != [] {
        assert lines[..0] == [];
        assert ("fee:" + fee.kind)[0] == 'f';
      }
    }
  }

  lemma FourLines(a: seq<Component>, b: seq<Component>, c: seq<Component>, d: seq<Component>)
    ensures InputQuantity(a + b + c + d) == InputQuantity(a) + InputQuantity(b) + InputQuantity(c) + InputQuantity(d)
  {
    InputQuantityConcat(a + b + c, d);
    InputQuantityConcat(a + b, c);
    InputQuantityConcat(a, b);
  }

  /** Lines with fitting counts and rates split the tokens into uncached, read and written ones. */
  lemma CountedLinesPartition(n: Counts, r: Rated)
    requires CountsFit(n) && RatesFit(n, r)
    ensures InputQuantity(CountedLines(n, r)) == n.tokens
  {
    LineQuantity(true, "input", n.tokens - n.cached - n.write, r.input);
    LineQuantity(n.cached > 0, "cacheRead", n.cached, r.cached);
    LineQuantity(n.out >= 0, "output", n.out, r.output);
    LineQuantity(n.write > 0, "cacheWrite", n.write, r.write);
    FourLines(Line(true, "input", n.tokens - n.cached - n.write, r.input), Line(n.cached > 0, "cacheRead", n.cached, r.cached),
              Line(n.out >= 0, "output", n.out, r.output), Line(n.write > 0, "cacheWrite", n.write, r.write));
  }

  /** Of an available token-priced estimate, the input, cache-read and cache-write
      quantities sum to the input tokens. */
  lemma InputIsPartitioned(p: Price, u: Usage)
    ensures !p.perUnit && Estimated(p, u).Available? ==> InputQuantity(Estimated(p, u).components) == Tokens(u)
  {
    if !p.perUnit && Estimated(p, u).Available? {
      var rates := EffectiveRates(p, u);
      CountedLinesPartition(CountsOf(u), RatedOf(rates));
      FeesTakeNoInput(p.fees, u);
      InputQuantityConcat(TokenLines(rates, u).components, AllFeeLines(p.fees, u).components);
    }
  }

  // ---------- Rates and fees ----------

  /** Rates come from the first tier that applies, or from none. */
  lemma {:induction false} TierIsFirst(tiers: seq<Tier>, context: int, i: nat)
    requires i < |tiers| && TierApplies(tiers[i], context)
    requires forall j :: 0 <= j < i ==> !TierApplies(tiers[j], context)
    ensures TierRates(tiers, context) == tiers[i].rates
  {
    if i > 0 {
      TierIsFirst(tiers[1..], context, i - 1);
    }
  }

  lemma {:induction false} NoTier(tiers: seq<Tier>, context: int)
    requires forall j :: 0 <= j < |tiers| ==> !TierApplies(tiers[j], context)
    ensures TierRates(tiers, context) == map[]
  {
    if tiers != [] {
      NoTier(tiers[1..], context);
    }
  }

  /** A rate is taken from the last table that has it. */
  lemma {:induction false} LastTableWins(rates: Rates, overlays: seq<Rates>, i: nat, key: string)
    requires i < |overlays| && key in overlays[i]
    requires forall j :: i < j < |overlays| ==> key !in overlays[j]
    ensures key in Overlaid(rates, overlays) && Overlaid(rates, overlays)[key] == overlays[i][key]
  {
    if i < |overlays| - 1 {
      LastTableWins(rates, overlays[..|overlays| - 1], i, key);
    }
  }

  /** The part of a requested quantity that an allowance covers. */
  function Covered(requested: int, left: int): int {
    if requested < left then requested else left
  }

  /** Charged and covered quantities add up to the requested one; of the allowance no more
      is used than the period left, and nothing is charged before it is used up. */
  predicate ChargesExcess(charged: int, requested: int, left: int) {
    && charged >= 0
    && charged + Covered(requested, left) == requested
    && (charged > 0 ==> Covered(requested, left) == left)
  }

  lemma FeesChargeTheExcess(fee: Fee, u: Usage)
    ensures FeeLines(fee, u).components != [] ==>
              && fee.kind in u.additive && |FeeLines(fee, u).components| == 1
              && var requested, free := ParseScaled(u.additive[fee.kind], TOKEN_PLACES), ParseScaled(fee.free, TOKEN_PLACES);
                 var consumed := if fee.kind in u.consumed then OrZero(ParseScaled(u.consumed[fee.kind], TOKEN_PLACES)) else 0;
                 && requested.Some? && free.Some?
                 && ChargesExcess(FeeLines(fee, u).components[0].quantity, requested.value, NonNegative(free.value - consumed))
  {}
}
