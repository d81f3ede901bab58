/** The price of a usage, read off the price tables, and how the engine's estimate relates to it. */
module CostTariff {
  import opened Options
  import opened Decimal
  import opened MoneyText
  import opened CostEngine
  import opened CostEstimate

  // ---------- What the tables offer ----------

  /** The number a text stands for; an absent or unreadable one counts as zero. */
  function Amount(text: Option<string>, places: nat): int {
    if text.Some? && ParseScaled(text.value, places).Some? then ParseScaled(text.value, places).value else 0
  }

  predicate Covers(tier: Tier, context: int) {
    && ParseScaled(tier.min, 0).Some? && ParseScaled(tier.min, 0).value <= context
    && (if tier.max.None? then context <= 9_223_372_036_854_775_807
        else ParseScaled(tier.max.value, 0).Some? && context <= ParseScaled(tier.max.value, 0).value)
  }

  function ContextOf(u: Usage): int {
    if u.context.Some? then Amount(u.context, 0) else Amount(u.input, 0)
  }

  ghost predicate OverlaidAt(p: Price, key: string, i: int) {
    0 <= i < |p.overlays| && key in p.overlays[i] && forall j :: i < j < |p.overlays| ==> key !in p.overlays[j]
  }

  ghost predicate TierAt(p: Price, context: int, i: int) {
    0 <= i < |p.tiers| && Covers(p.tiers[i], context) && forall j :: 0 <= j < i ==> !Covers(p.tiers[j], context)
  }

  /** The text under a key comes from the last overlay that has it, or else from the first tier
      for the context, or else from the base table. */
  ghost predicate Offers(p: Price, context: int, key: string, text: string) {
    if exists i :: OverlaidAt(p, key, i) then exists i :: OverlaidAt(p, key, i) && p.overlays[i][key] == text
    else if exists i :: TierAt(p, context, i) && key in p.tiers[i].rates
    then exists i :: TierAt(p, context, i) && key in p.tiers[i].rates && p.tiers[i].rates[key] == text
    else key in p.rates && p.rates[key] == text
  }

  lemma {:induction false} OverlaidIs(p: Price, rates: Rates, key: string)
    ensures (exists i :: OverlaidAt(p, key, i)) ==>
              && key in Overlaid(rates, p.overlays)
              && forall i :: OverlaidAt(p, key, i) ==> Overlaid(rates, p.overlays)[key] == p.overlays[i][key]
    ensures (!exists i :: OverlaidAt(p, key, i)) ==>
              && (key in Overlaid(rates, p.overlays) <==> key in rates)
              && (key in rates ==> Overlaid(rates, p.overlays)[key] == rates[key])
    decreases |p.overlays|
  {
    if p.overlays != [] {
      var last := |p.overlays| - 1;
      var q := p.(overlays := p.overlays[..last]);
      OverlaidIs(q, rates, key);
      if key in p.overlays[last] {
        assert OverlaidAt(p, key, last);
        assert forall i :: OverlaidAt(p, key, i) ==> i == last;
      } else {
        forall i
          ensures OverlaidAt(p, key, i) <==> OverlaidAt(q, key, i)
        {
          assert 0 <= i < last ==> q.overlays[i] == p.overlays[i];
          assert forall j :: 0 <= j < last ==> q.overlays[j] == p.overlays[j];
        }
        assert forall i :: OverlaidAt(q, key, i) ==> q.overlays[i] == p.overlays[i];
      }
    }
  }

  lemma CoversIsApplies(tier: Tier, context: int)
    ensures Covers(tier, context) <==> TierApplies(tier, context)
  {
    hide ParseScaled;
  }

  lemma TierIs(p: Price, context: int)
    ensures forall i :: TierAt(p, context, i) ==> TierRates(p.tiers, context) == p.tiers[i].rates
    ensures (!exists i :: TierAt(p, context, i)) ==> TierRates(p.tiers, context) == map[]
    ensures forall i, j :: TierAt(p, context, i) && TierAt(p, context, j) ==> i == j
  {
    hide Covers, TierApplies;
    forall i | 0 <= i < |p.tiers|
      ensures Covers(p.tiers[i], context) <==> TierApplies(p.tiers[i], context)
    {
      CoversIsApplies(p.tiers[i], context);
    }
    forall i | TierAt(p, context, i)
      ensures TierRates(p.tiers, context) == p.tiers[i].rates
    {
      TierIsFirst(p.tiers, context, i);
    }
    if !exists i :: TierAt(p, context, i) {
      NoneApplies(p, context, |p.tiers|);
      NoTier(p.tiers, context);
    }
  }

  lemma {:induction false} NoneApplies(p: Price, context: int, n: nat)
    requires n <= |p.tiers| && !exists i :: TierAt(p, context, i)
    ensures forall j :: 0 <= j < n ==> !Covers(p.tiers[j], context)
  {
    hide Covers;
    if n > 0 {
      NoneApplies(p, context, n - 1);
      assert !TierAt(p, context, n - 1);
    }
  }

  lemma ContextIs(u: Usage)
    ensures ContextTokens(u) == ContextOf(u)
  {
    hide ParseScaled;
  }

  /** The merged table has exactly what the tables offer. */
  lemma RatesAreOffered(p: Price, u: Usage, key: string)
    ensures key in EffectiveRates(p, u) <==> exists text :: Offers(p, ContextOf(u), key, text)
    ensures forall text :: Offers(p, ContextOf(u), key, text) <==> key in EffectiveRates(p, u) && EffectiveRates(p, u)[key] == text
  {
    var context := ContextOf(u);
    ContextIs(u);
    var base := p.rates + TierRates(p.tiers, context);
    OverlaidIs(p, base, key);
    TierIs(p, context);
    hide ContextTokens, Overlaid, TierRates, ContextOf, Covers, OverlaidAt;
    forall text
      ensures Offers(p, context, key, text) <==> key in EffectiveRates(p, u) && EffectiveRates(p, u)[key] == text
    {
      if exists i :: OverlaidAt(p, key, i) {
        var i :| OverlaidAt(p, key, i);
      } else if exists i :: TierAt(p, context, i) && key in p.tiers[i].rates {
        var i :| TierAt(p, context, i) && key in p.tiers[i].rates;
      } else if exists i :: TierAt(p, context, i) {
        var i :| TierAt(p, context, i);
      }
    }
    if key in EffectiveRates(p, u) {
      assert Offers(p, context, key, EffectiveRates(p, u)[key]);
    }
  }

  // ---------- Rates ----------

  /** `rate` is what the text under the first offered key stands for, in nano-units. */
  ghost predicate IsRate(p: Price, context: int, keys: seq<string>, rate: int) {
    exists n, text :: IsRateAt(p, context, keys, n, text, rate)
  }

  ghost predicate IsRateAt(p: Price, context: int, keys: seq<string>, n: int, text: string, rate: int) {
    && 0 <= n < |keys| && Offers(p, context, keys[n], text) && ParseScaled(text, 9) == Some(rate)
    && forall m, other :: 0 <= m < n ==> !Offers(p, context, keys[m], other)
  }

  lemma {:induction false} FirstKeyAt(rates: Rates, keys: seq<string>, n: nat)
    requires n < |keys| && keys[n] in rates && forall m :: 0 <= m < n ==> keys[m] !in rates
    ensures FirstKey(rates, keys) == Some(rates[keys[n]])
  {
    if n > 0 {
      FirstKeyAt(rates, keys[1..], n - 1);
    }
  }

  lemma {:induction false} FirstKeyFound(rates: Rates, keys: seq<string>) returns (n: nat)
    requires FirstKey(rates, keys).Some?
    ensures n < |keys| && keys[n] in rates && forall m :: 0 <= m < n ==> keys[m] !in rates
  {
    if keys[0] in rates {
      n := 0;
    } else {
      n := FirstKeyFound(rates, keys[1..]);
      n := n + 1;
    }
  }

  lemma RateIsOffered(p: Price, u: Usage, keys: seq<string>)
    ensures forall rate :: IsRate(p, ContextOf(u), keys, rate) <==> RateOf(EffectiveRates(p, u), keys) == Some(rate)
  {
    var context, rates := ContextOf(u), EffectiveRates(p, u);
    forall key: string
      ensures key in rates <==> exists text :: Offers(p, context, key, text)
      ensures forall text :: Offers(p, context, key, text) <==> key in rates && rates[key] == text
    {
      RatesAreOffered(p, u, key);
    }
    hide EffectiveRates, Offers, ContextOf, FirstKey, ParseScaled;
    forall rate
      ensures IsRate(p, context, keys, rate) <==> RateOf(rates, keys) == Some(rate)
    {
      if IsRate(p, context, keys, rate) {
        var n, text :| IsRateAt(p, context, keys, n, text, rate);
        FirstKeyAt(rates, keys, n);
      }
      if RateOf(rates, keys) == Some(rate) {
        var n := FirstKeyFound(rates, keys);
        FirstKeyAt(rates, keys, n);
        assert IsRateAt(p, context, keys, n, rates[keys[n]], rate);
      }
    }
  }

  // ---------- Lines ----------

  /** A line for tokens: what it counts, and the keys of its rate in order of preference. */
  ghost predicate IsTokenLine(p: Price, u: Usage, c: Component) {
    var context := ContextOf(u);
    var input, cached, write, output := Amount(u.input, 0), Amount(u.cached, 0), Amount(u.cacheWrite, 0), Amount(u.output, 0);
    || (&& c.kind == "input" && c.quantity == input - cached - write && c.quantity >= 0
        && IsRate(p, context, ["input"], c.rate))
    || (&& c.kind == "cacheRead" && c.quantity == cached && cached > 0
        && IsRate(p, context, ["cachedInput", "cacheRead", "cachedInputRate"], c.rate))
    || (&& c.kind == "output" && c.quantity == output && output >= 0
        && IsRate(p, context, ["output"], c.rate))
    || (&& c.kind == "cacheWrite" && c.quantity == write && write > 0
        && IsRate(p, context, ["cacheWrite", "cacheWriteInput", "cacheWriteRate"], c.rate))
  }

  /** A line for a fee on what exceeds the allowance that is left, in millionths. */
  predicate IsFeeLine(fee: Fee, u: Usage, c: Component) {
    && fee.kind in u.additive && c.kind == "fee:" + fee.kind
    && ParseScaled(fee.amount, 9) == Some(c.rate)
    && ParseScaled(u.additive[fee.kind], 6).Some? && ParseScaled(fee.free, 6).Some?
    && c.quantity == Chargeable(fee, u)
  }

  function Chargeable(fee: Fee, u: Usage): int
    requires fee.kind in u.additive
  {
    var requested, free := Amount(Some(u.additive[fee.kind]), 6), Amount(Some(fee.free), 6);
    var consumed := if fee.kind in u.consumed then Amount(Some(u.consumed[fee.kind]), 6) else 0;
    var left := if free > consumed then free - consumed else 0;
    if requested > left then requested - left else 0
  }

  predicate IsUnitLine(p: Price, u: Usage, c: Component) {
    && c.kind == "unit" && c.quantity == Amount(u.unitQuantity, 6) && c.quantity >= 0
    && p.unitAmount.Some? && ParseScaled(p.unitAmount.value, 9) == Some(c.rate)
  }

  lemma CountsAre(u: Usage)
    ensures CountsOf(u) == Counts(Amount(u.input, 0), Amount(u.cached, 0), Amount(u.cacheWrite, 0), Amount(u.output, 0))
  {
    hide ParseScaled;
  }

  lemma TokenLinesAre(p: Price, u: Usage, c: Component)
    requires c in TokenLines(EffectiveRates(p, u), u).components
    ensures IsTokenLine(p, u, c)
  {
    var n, r := CountsOf(u), RatedOf(EffectiveRates(p, u));
    CountsAre(u);
    RateIsOffered(p, u, ["input"]);
    RateIsOffered(p, u, CACHED_KEYS);
    RateIsOffered(p, u, ["output"]);
    RateIsOffered(p, u, WRITE_KEYS);
    hide EffectiveRates, IsRate, RateOf, ContextOf, Amount, CountsOf, ParseScaled, RoundDivide;
    assert c in CountedLines(n, r);
  }

  lemma FeeLinesAre(fee: Fee, u: Usage, c: Component)
    requires c in FeeLines(fee, u).components
    ensures IsFeeLine(fee, u, c)
  {
    hide ParseScaled, RoundDivide;
  }

  lemma {:induction false} AllFeeLinesAre(fees: seq<Fee>, u: Usage, c: Component)
    requires c in AllFeeLines(fees, u).components
    ensures exists i :: 0 <= i < |fees| && IsFeeLine(fees[i], u, c)
  {
    var init, last := fees[..|fees| - 1], fees[|fees| - 1];
    hide FeeLines, IsFeeLine;
    if c in AllFeeLines(init, u).components {
      AllFeeLinesAre(init, u, c);
      var i :| 0 <= i < |init| && IsFeeLine(init[i], u, c);
      assert fees[i] == init[i];
    } else {
      FeeLinesAre(last, u, c);
    }
  }

  /** Every line is one of the usage: its quantity comes from the counts, its rate from the
      tables, and its amount is their product, rounded to the nearest nano-unit. */
  lemma LinesAre(p: Price, u: Usage, c: Component)
    requires c in AllLines(p, u).components
    ensures if p.perUnit then IsUnitLine(p, u, c)
            else IsTokenLine(p, u, c) || exists i :: 0 <= i < |p.fees| && IsFeeLine(p.fees[i], u, c)
    ensures 2 * Abs(c.amount * 1_000_000 - c.quantity * c.rate) <= 1_000_000
  {
    LinesArePriced(p, u);
    RoundDivideIsHalfAway(c.quantity * c.rate, TOKEN_SCALE);
    if p.perUnit {
      hide ParseScaled, RoundDivide;
    } else if c in TokenLines(EffectiveRates(p, u), u).components {
      TokenLinesAre(p, u, c);
    } else {
      AllFeeLinesAre(p.fees, u, c);
    }
    hide IsTokenLine, IsFeeLine, TokenLines, AllFeeLines, RoundDivide, EffectiveRates;
  }

  // ---------- The price ----------

  /** The rate under the first offered key, nothing if there is none. */
  ghost function Rate(p: Price, u: Usage, keys: seq<string>): int {
    if exists rate :: IsRate(p, ContextOf(u), keys, rate) then
      RateIsOffered(p, u, keys);
      var rate :| IsRate(p, ContextOf(u), keys, rate); rate
    else 0
  }

  /** In millionths of a nano-unit. */
  ghost function TokensPrice(p: Price, u: Usage): int {
    var cached, write := Amount(u.cached, 0), Amount(u.cacheWrite, 0);
    (Amount(u.input, 0) - cached - write) * Rate(p, u, ["input"])
    + cached * Rate(p, u, ["cachedInput", "cacheRead", "cachedInputRate"])
    + Amount(u.output, 0) * Rate(p, u, ["output"])
    + write * Rate(p, u, ["cacheWrite", "cacheWriteInput", "cacheWriteRate"])
  }

  function FeePrice(fee: Fee, u: Usage): int {
    if fee.kind in u.additive then Chargeable(fee, u) * Amount(Some(fee.amount), 9) else 0
  }

  function FeesPrice(fees: seq<Fee>, u: Usage): int {
    if fees == [] then 0 else FeesPrice(fees[..|fees| - 1], u) + FeePrice(fees[|fees| - 1], u)
  }

  /** The exact price of the usage, before any discount. */
  ghost function PriceOf(p: Price, u: Usage): int {
    if p.perUnit then Amount(u.unitQuantity, 6) * Amount(p.unitAmount, 9)
    else TokensPrice(p, u) + FeesPrice(p.fees, u)
  }

  lemma {:induction false} ExactConcat(a: seq<Component>, b: seq<Component>)
    ensures Exact(a + b) == Exact(a) + Exact(b)
  {
    if b == [] {
      assert a + b == a;
    } else {
      assert (a + b)[..|a + b| - 1] == a + b[..|b| - 1];
      ExactConcat(a, b[..|b| - 1]);
    }
  }

  lemma ExactLine(when: bool, kind: string, quantity: int, rate: Option<int>)
    ensures Exact(Line(when, kind, quantity, rate)) == if when && rate.Some? then quantity * rate.value else 0
  {
    var line := Line(when, kind, quantity, rate);
    if line != [] {
      assert line[..0] == [];
    }
  }

  lemma RateIs(p: Price, u: Usage, keys: seq<string>)
    ensures RateOf(EffectiveRates(p, u), keys).Some? ==> Rate(p, u, keys) == RateOf(EffectiveRates(p, u), keys).value
  {
    RateIsOffered(p, u, keys);
    hide EffectiveRates, IsRate, RateOf, ContextOf;
    if RateOf(EffectiveRates(p, u), keys).Some? {
      assert IsRate(p, ContextOf(u), keys, RateOf(EffectiveRates(p, u), keys).value);
    }
  }

  lemma ExactCounted(n: Counts, r: Rated)
    requires CountsFit(n) && RatesFit(n, r) && n.out >= 0
    ensures Exact(CountedLines(n, r))
            == (n.tokens - n.cached - n.write) * r.input.value + (if n.cached > 0 then n.cached * r.cached.value else 0)
               + n.out * r.output.value + (if n.write > 0 then n.write * r.write.value else 0)
  {
    var a, b := Line(CountsFit(n), "input", n.tokens - n.cached - n.write, r.input), Line(n.cached > 0, "cacheRead", n.cached, r.cached);
    var c, d := Line(n.out >= 0, "output", n.out, r.output), Line(n.write > 0, "cacheWrite", n.write, r.write);
    ExactLine(CountsFit(n), "input", n.tokens - n.cached - n.write, r.input);
    ExactLine(n.cached > 0, "cacheRead", n.cached, r.cached);
    ExactLine(n.out >= 0, "output", n.out, r.output);
    ExactLine(n.write > 0, "cacheWrite", n.write, r.write);
    hide Line, Exact;
    ExactConcat(a, b);
    ExactConcat(a + b, c);
    ExactConcat(a + b + c, d);
  }

  lemma NothingMissing(rates: Rates, u: Usage)
    requires !TokenLines(rates, u).incomplete
    ensures CountsFit(CountsOf(u)) && RatesFit(CountsOf(u), RatedOf(rates)) && CountsOf(u).out >= 0
    ensures TokenLines(rates, u).components == CountedLines(CountsOf(u), RatedOf(rates))
  {
    hide CountedLines, CountsOf, RatedOf, ParseScaled, CountsFit, RatesFit;
  }

  lemma CountTimesRate(quantity: int, rate: Option<int>, price: int)
    requires quantity >= 0 && (quantity > 0 ==> rate.Some?) && (rate.Some? ==> price == rate.value)
    ensures (if quantity > 0 then quantity * rate.value else 0) == quantity * price
  {}

  lemma RatedIs(p: Price, u: Usage)
    ensures
      var r := RatedOf(EffectiveRates(p, u));
      && (r.input.Some? ==> Rate(p, u, ["input"]) == r.input.value)
      && (r.cached.Some? ==> Rate(p, u, ["cachedInput", "cacheRead", "cachedInputRate"]) == r.cached.value)
      && (r.output.Some? ==> Rate(p, u, ["output"]) == r.output.value)
      && (r.write.Some? ==> Rate(p, u, ["cacheWrite", "cacheWriteInput", "cacheWriteRate"]) == r.write.value)
  {
    hide Rate, EffectiveRates, RateOf;
    RateIs(p, u, ["input"]);
    RateIs(p, u, CACHED_KEYS);
    RateIs(p, u, ["output"]);
    RateIs(p, u, WRITE_KEYS);
  }

  lemma ExactTokens(p: Price, u: Usage)
    requires !TokenLines(EffectiveRates(p, u), u).incomplete
    ensures Exact(TokenLines(EffectiveRates(p, u), u).components) == TokensPrice(p, u)
  {
    hide TokenLines, Rate, EffectiveRates, RatedOf, Amount, CountsOf, CountedLines, Exact, CountsFit, RatesFit;
    var n, r := CountsOf(u), RatedOf(EffectiveRates(p, u));
    NothingMissing(EffectiveRates(p, u), u);
    CountsAre(u);
    ExactCounted(n, r);
    RatedIs(p, u);
    FittingRates(n, r);
    SumOfTerms(n, r, Rate(p, u, ["input"]), Rate(p, u, ["cachedInput", "cacheRead", "cachedInputRate"]), Rate(p, u, ["output"]),
               Rate(p, u, ["cacheWrite", "cacheWriteInput", "cacheWriteRate"]));
  }

  lemma FittingRates(n: Counts, r: Rated)
    requires RatesFit(n, r)
    ensures r.input.Some? && r.output.Some?
  {}

  lemma SumOfTerms(n: Counts, r: Rated, input: int, cached: int, output: int, write: int)
    requires CountsFit(n) && RatesFit(n, r)
    requires r.input == Some(input) && r.output == Some(output)
    requires (r.cached.Some? ==> r.cached.value == cached) && (r.write.Some? ==> r.write.value == write)
    ensures (n.tokens - n.cached - n.write) * r.input.value + (if n.cached > 0 then n.cached * r.cached.value else 0)
            + n.out * r.output.value + (if n.write > 0 then n.write * r.write.value else 0)
            == (n.tokens - n.cached - n.write) * input + n.cached * cached + n.out * output + n.write * write
  {
    CountTimesRate(n.cached, r.cached, cached);
    CountTimesRate(n.write, r.write, write);
  }

  lemma {:induction false} ExactFees(fees: seq<Fee>, u: Usage)
    requires !AllFeeLines(fees, u).incomplete
    ensures Exact(AllFeeLines(fees, u).components) == FeesPrice(fees, u)
  {
    if fees != [] {
      var init, last := fees[..|fees| - 1], fees[|fees| - 1];
      ExactFees(init, u);
      ExactFee(last, u);
      ExactConcat(AllFeeLines(init, u).components, FeeLines(last, u).components);
      hide FeeLines, FeePrice, Exact;
    }
  }

  lemma ExactFee(fee: Fee, u: Usage)
    requires !FeeLines(fee, u).incomplete
    ensures Exact(FeeLines(fee, u).components) == FeePrice(fee, u)
  {
    hide ParseScaled, RoundDivide;
    var lines := FeeLines(fee, u).components;
    if lines != [] {
      assert lines == [lines[0]] && lines[..0] == [];
      assert lines[0].quantity == Chargeable(fee, u) && lines[0].rate == Amount(Some(fee.amount), 9);
    }
  }

  /** When nothing is missing, the lines' exact total is the price. */
  lemma ExactIsPrice(p: Price, u: Usage)
    requires !AllLines(p, u).incomplete
    ensures Exact(AllLines(p, u).components) == PriceOf(p, u)
  {
    if p.perUnit {
      hide ParseScaled, RoundDivide;
      var lines := AllLines(p, u).components;
      assert lines == [lines[0]] && lines[..0] == [];
    } else {
      ExactTokens(p, u);
      ExactFees(p.fees, u);
      ExactConcat(TokenLines(EffectiveRates(p, u), u).components, AllFeeLines(p.fees, u).components);
      hide TokenLines, AllFeeLines, TokensPrice, FeesPrice, Exact, EffectiveRates;
    }
  }

  // ---------- The estimate ----------

  /** A minor unit in nano-units. */
  function MinorUnit(digits: nat): int {
    if digits == 0 then 1_000_000_000 else if digits == 1 then 100_000_000 else if digits == 2 then 10_000_000 else 1_000_000
  }

  /** What a batch discount leaves, in hundredths of a percent. */
  function Left(p: Price, u: Usage): int {
    if u.batch && !p.perUnit then 10_000 - Amount(p.batchDiscount, 2) else 10_000
  }

  function FeesUsed(fees: seq<Fee>, u: Usage): nat {
    if fees == [] then 0 else FeesUsed(fees[..|fees| - 1], u) + if fees[|fees| - 1].kind in u.additive then 1 else 0
  }

  /** How many things are priced. */
  function LineCount(p: Price, u: Usage): nat {
    if p.perUnit then 1
    else 2 + (if Amount(u.cached, 0) > 0 then 1 else 0) + (if Amount(u.cacheWrite, 0) > 0 then 1 else 0) + FeesUsed(p.fees, u)
  }

  /** The estimate is within half a minor unit, half a nano-unit for the discount, and half a
      nano-unit for each line, of the discounted price. */
  ghost predicate IsNear(minor: int, digits: nat, price: int, lines: nat, left: int) {
    var unit := MinorUnit(digits);
    var bound := (unit + 1) * 10_000_000_000 + lines * left * 1_000_000;
    -bound <= 2 * (minor * unit * 10_000_000_000 - price * left) <= bound
  }

  /** The product of a quantity and a rate, rounded, is below 2^63 whole units. */
  predicate Below(quantity: int, rate: int) {
    -9_223_372_036_854_775_808_000_000_000_000_000 < quantity * rate - 500_000
    && quantity * rate + 500_000 < 9_223_372_036_854_775_808_000_000_000_000_000
  }

  ghost predicate PricesFit(p: Price, u: Usage) {
    if p.perUnit then Below(Amount(u.unitQuantity, 6), Amount(p.unitAmount, 9))
    else
      var cached, write := Amount(u.cached, 0), Amount(u.cacheWrite, 0);
      && Below(Amount(u.input, 0) - cached - write, Rate(p, u, ["input"]))
      && Below(cached, Rate(p, u, ["cachedInput", "cacheRead", "cachedInputRate"]))
      && Below(Amount(u.output, 0), Rate(p, u, ["output"]))
      && Below(write, Rate(p, u, ["cacheWrite", "cacheWriteInput", "cacheWriteRate"]))
      && forall i :: 0 <= i < |p.fees| && p.fees[i].kind in u.additive ==> Below(Chargeable(p.fees[i], u), Amount(Some(p.fees[i].amount), 9))
  }

  ghost predicate NoNegativeRate(p: Price, u: Usage) {
    && Amount(p.unitAmount, 9) >= 0 && (forall i :: 0 <= i < |p.fees| ==> Amount(Some(p.fees[i].amount), 9) >= 0)
    && Rate(p, u, ["input"]) >= 0 && Rate(p, u, ["cachedInput", "cacheRead", "cachedInputRate"]) >= 0
    && Rate(p, u, ["output"]) >= 0 && Rate(p, u, ["cacheWrite", "cacheWriteInput", "cacheWriteRate"]) >= 0
  }

  lemma BelowIsFits(quantity: int, rate: int)
    ensures Below(quantity, rate) <==> Fits(quantity, rate)
  {}

  lemma LineFitsBelow(when: bool, quantity: int, rate: Option<int>, price: int)
    requires when || quantity == 0
    requires when ==> rate.Some? && rate.value == price
    ensures LineFits(when, quantity, rate) <==> Below(quantity, price)
  {
    BelowIsFits(quantity, price);
    if !when {
      assert quantity * price == 0;
    }
    hide Below, Fits;
  }

  lemma TokensFitIff(p: Price, u: Usage)
    requires !TokenLines(EffectiveRates(p, u), u).incomplete
    ensures
      var cached, write := Amount(u.cached, 0), Amount(u.cacheWrite, 0);
      CountsTimesRatesFit(CountsOf(u), RatedOf(EffectiveRates(p, u))) <==>
        && Below(Amount(u.input, 0) - cached - write, Rate(p, u, ["input"]))
        && Below(cached, Rate(p, u, ["cachedInput", "cacheRead", "cachedInputRate"]))
        && Below(Amount(u.output, 0), Rate(p, u, ["output"]))
        && Below(write, Rate(p, u, ["cacheWrite", "cacheWriteInput", "cacheWriteRate"]))
  {
    hide TokenLines, Rate, EffectiveRates, RatedOf, Amount, CountsOf, CountedLines, Below, LineFits;
    var n, r := CountsOf(u), RatedOf(EffectiveRates(p, u));
    NothingMissing(EffectiveRates(p, u), u);
    CountsAre(u);
    RatedIs(p, u);
    LineFitsBelow(CountsFit(n), n.tokens - n.cached - n.write, r.input, Rate(p, u, ["input"]));
    LineFitsBelow(n.cached > 0, n.cached, r.cached, Rate(p, u, ["cachedInput", "cacheRead", "cachedInputRate"]));
    LineFitsBelow(n.out >= 0, n.out, r.output, Rate(p, u, ["output"]));
    LineFitsBelow(n.write > 0, n.write, r.write, Rate(p, u, ["cacheWrite", "cacheWriteInput", "cacheWriteRate"]));
  }

  lemma FeeFitsIff(fee: Fee, u: Usage)
    requires !FeeLines(fee, u).incomplete
    ensures FeeFits(fee, u) <==> (fee.kind in u.additive ==> Below(Chargeable(fee, u), Amount(Some(fee.amount), 9)))
  {
    hide ParseScaled, RoundDivide, Fits, Below;
    if fee.kind in u.additive {
      BelowIsFits(Chargeable(fee, u), Amount(Some(fee.amount), 9));
    }
  }

  lemma {:induction false} EachFeeComplete(fees: seq<Fee>, u: Usage, i: nat)
    requires !AllFeeLines(fees, u).incomplete && i < |fees|
    ensures !FeeLines(fees[i], u).incomplete
  {
    hide FeeLines;
    if i < |fees| - 1 {
      EachFeeComplete(fees[..|fees| - 1], u, i);
    }
  }

  lemma FitsIff(p: Price, u: Usage)
    requires !AllLines(p, u).incomplete
    ensures ProductsFit(p, u) <==> PricesFit(p, u)
  {
    hide ParseScaled, RoundDivide, Fits, Below, FeeFits, CountsTimesRatesFit, TokenLines, AllFeeLines, EffectiveRates, Rate, Chargeable;
    if p.perUnit {
      BelowIsFits(Amount(u.unitQuantity, 6), Amount(p.unitAmount, 9));
    } else {
      TokensFitIff(p, u);
      forall i | 0 <= i < |p.fees|
        ensures FeeFits(p.fees[i], u) <==>
                  (p.fees[i].kind in u.additive ==> Below(Chargeable(p.fees[i], u), Amount(Some(p.fees[i].amount), 9)))
      {
        EachFeeComplete(p.fees, u, i);
        FeeFitsIff(p.fees[i], u);
      }
    }
  }

  lemma RatesNotNegativeIf(p: Price, u: Usage)
    requires NoNegativeRate(p, u)
    ensures RatesNotNegative(p, u)
  {
    hide ParseScaled, EffectiveRates, Rate, RatedOf;
    RatedIs(p, u);
    forall i | 0 <= i < |p.fees|
      ensures NotNegative(ParseScaled(p.fees[i].amount, RATE_PLACES))
    {
      assert Amount(Some(p.fees[i].amount), 9) >= 0;
    }
  }

  lemma {:induction false} FeesUsedCount(fees: seq<Fee>, u: Usage)
    requires !AllFeeLines(fees, u).incomplete
    ensures |AllFeeLines(fees, u).components| == FeesUsed(fees, u) <= |fees|
  {
    if fees != [] {
      hide ParseScaled, RoundDivide;
      FeesUsedCount(fees[..|fees| - 1], u);
    }
  }

  lemma LinesCount(p: Price, u: Usage)
    requires !AllLines(p, u).incomplete
    ensures |AllLines(p, u).components| == LineCount(p, u) <= |p.fees| + 4
  {
    if p.perUnit {
      hide ParseScaled, RoundDivide;
    } else {
      hide TokenLines, AllFeeLines, EffectiveRates, RatedOf, Amount, CountsOf, CountedLines, CountsFit, RatesFit;
      NothingMissing(EffectiveRates(p, u), u);
      CountsAre(u);
      CountedLinesCount(CountsOf(u), RatedOf(EffectiveRates(p, u)));
      FeesUsedCount(p.fees, u);
    }
  }

  lemma CountedLinesCount(n: Counts, r: Rated)
    requires CountsFit(n) && RatesFit(n, r) && n.out >= 0
    ensures |CountedLines(n, r)| == 2 + (if n.cached > 0 then 1 else 0) + (if n.write > 0 then 1 else 0)
  {
    hide Priced;
  }

  lemma DiscountIs(p: Price, u: Usage)
    requires !AllLines(p, u).incomplete
    ensures Discount(p, u).Some? && Share(u.batch && !p.perUnit, Discount(p, u)) == Left(p, u)
  {
    hide ParseScaled, TokenLines, AllFeeLines, EffectiveRates;
  }

  lemma NearIff(p: Price, u: Usage)
    requires Estimated(p, u).Available?
    ensures !AllLines(p, u).incomplete && Discount(p, u).Some? && p.minorDigits.Some? && p.minorDigits.value <= 3
    ensures EstimateNear(p, u) <==> IsNear(Estimated(p, u).minor, p.minorDigits.value, PriceOf(p, u), LineCount(p, u), Left(p, u))
  {
    hide AllLines, PriceOf, Subtotal, Discounted, RoundDivide, Discount, LineCount, Left, Exact;
    EstimatedMinor(p, u);
    ExactIsPrice(p, u);
    LinesCount(p, u);
    DiscountIs(p, u);
    DivisorIs(p.minorDigits.value);
    NearIs(Estimated(p, u).minor, p.minorDigits.value, AllLines(p, u).components, Left(p, u));
  }

  lemma DivisorIs(digits: nat)
    requires digits <= 3
    ensures Divisor(digits) == MinorUnit(digits)
  {
    assert Pow10(3) == 1000;
    Pow10Split(3, 3);
    Pow10Split(3, 6);
    Pow10Split(2, 6);
    Pow10Split(1, 6);
  }

  lemma NearIs(minor: int, digits: nat, components: seq<Component>, left: int)
    requires digits <= 3
    ensures NearExact(minor, Divisor(digits), components, left) <==> IsNear(minor, digits, Exact(components), |components|, left)
  {
    DivisorIs(digits);
    var unit, price, lines := MinorUnit(digits), Exact(components), |components|;
    hide MinorUnit, Exact, Divisor, Pow10;
    assert minor * unit * TOKEN_SCALE * PERCENT_SCALE == minor * unit * 10_000_000_000;
  }

  /** An available estimate is near the price that the tables give, if each quantity times its
      rate fits and the discount is from 0 to 100 percent. */
  lemma EstimateIsNearPrice(p: Price, u: Usage)
    requires Estimated(p, u).Available? && PricesFit(p, u) && 0 <= Left(p, u) <= 10_000
    ensures p.minorDigits.Some? && p.minorDigits.value <= 3
    ensures IsNear(Estimated(p, u).minor, p.minorDigits.value, PriceOf(p, u), LineCount(p, u), Left(p, u))
    ensures FitsMinor(Estimated(p, u).minor)
  {
    AvailableFits(p, u);
    hide Estimated, AllLines, FitsMinor, PricesFit, ProductsFit, Discount, EstimateNear, IsNear, LineCount, PriceOf;
    NearIff(p, u);
    FitsIff(p, u);
    DiscountIs(p, u);
    DiscountInRange(p, u);
    EstimateIsNear(p, u);
  }

  predicate FitsMinor(minor: int) {
    -9_223_372_036_854_775_808 <= minor <= 9_223_372_036_854_775_807
  }

  lemma AvailableFits(p: Price, u: Usage)
    requires Estimated(p, u).Available?
    ensures FitsMinor(Estimated(p, u).minor)
  {}

  lemma OverflowIs(p: Price, u: Usage)
    requires Estimated(p, u).Overflow?
    ensures !AllLines(p, u).incomplete && p.minorDigits.Some? && p.minorDigits.value <= 3
    ensures !FitsMinor(RoundDivide(Discounted(Subtotal(AllLines(p, u).components), u.batch && !p.perUnit, Discount(p, u)),
                                   Divisor(p.minorDigits.value)))
  {}

  lemma LinesNearPrice(p: Price, u: Usage, minor: int)
    requires !AllLines(p, u).incomplete && PricesFit(p, u) && 0 <= Left(p, u) <= 10_000
    requires p.minorDigits.Some? && p.minorDigits.value <= 3
    requires minor == RoundDivide(Discounted(Subtotal(AllLines(p, u).components), u.batch && !p.perUnit, Discount(p, u)),
                                  Divisor(p.minorDigits.value))
    ensures IsNear(minor, p.minorDigits.value, PriceOf(p, u), LineCount(p, u), Left(p, u))
  {
    hide AllLines, PriceOf, PricesFit, ProductsFit, Printable, IsPriced, Subtotal, Discounted, RoundDivide, Discount, LineCount, Left,
         Exact, Divisor, NearExact, IsNear, Share;
    FitsIff(p, u);
    DiscountIs(p, u);
    DiscountInRange(p, u);
    AllPrintableIff(p, u);
    LinesArePriced(p, u);
    DivisorIs(p.minorDigits.value);
    LinesAreNear(AllLines(p, u).components, u.batch && !p.perUnit, Discount(p, u), Divisor(p.minorDigits.value));
    NearIs(minor, p.minorDigits.value, AllLines(p, u).components, Left(p, u));
    ExactIsPrice(p, u);
    LinesCount(p, u);
  }

  /** An estimate overflows only when an amount near the price does not fit 64 bits. */
  lemma OverflowIsOutOfRange(p: Price, u: Usage) returns (minor: int)
    requires Estimated(p, u).Overflow? && PricesFit(p, u) && 0 <= Left(p, u) <= 10_000
    ensures p.minorDigits.Some? && p.minorDigits.value <= 3
    ensures !FitsMinor(minor) && IsNear(minor, p.minorDigits.value, PriceOf(p, u), LineCount(p, u), Left(p, u))
  {
    OverflowIs(p, u);
    hide Estimated, AllLines, Subtotal, Discounted, RoundDivide, PricesFit, FitsMinor, IsNear, PriceOf, LineCount, Left;
    minor := RoundDivide(Discounted(Subtotal(AllLines(p, u).components), u.batch && !p.perUnit, Discount(p, u)),
                         Divisor(p.minorDigits.value));
    LinesNearPrice(p, u, minor);
  }

  lemma DiscountInRange(p: Price, u: Usage)
    requires Discount(p, u).Some?
    ensures Share(u.batch && !p.perUnit, Discount(p, u)) == 10_000 - Discount(p, u).value
  {
    hide ParseScaled;
  }

  /** With no negative rate and a discount below 100 percent it is near if and only if each
      quantity times its rate fits. */
  lemma EstimateIsNearPriceIff(p: Price, u: Usage)
    requires Estimated(p, u).Available? && NoNegativeRate(p, u) && 0 < Left(p, u) <= 10_000 && |p.fees| + 4 <= MAX64
    ensures p.minorDigits.Some? && p.minorDigits.value <= 3
    ensures IsNear(Estimated(p, u).minor, p.minorDigits.value, PriceOf(p, u), LineCount(p, u), Left(p, u)) <==> PricesFit(p, u)
  {
    hide Estimated, AllLines, PricesFit, ProductsFit, Discount, EstimateNear, IsNear, LineCount, PriceOf, NoNegativeRate, RatesNotNegative;
    NearIff(p, u);
    FitsIff(p, u);
    DiscountIs(p, u);
    DiscountInRange(p, u);
    RatesNotNegativeIf(p, u);
    EstimateIsNearIff(p, u);
  }

  // ---------- When there is an estimate ----------

  predicate Parses(text: Option<string>, places: nat) {
    text.Some? && ParseScaled(text.value, places).Some?
  }

  /** A fee that the usage asks for has numbers, and its allowance is accounted for. */
  predicate FeeKnown(fee: Fee, u: Usage) {
    fee.kind in u.additive ==>
      && Parses(Some(fee.amount), 9) && Parses(Some(u.additive[fee.kind]), 6) && Parses(Some(fee.free), 6)
      && if fee.kind in u.consumed then Parses(Some(u.consumed[fee.kind]), 6) else Amount(Some(fee.free), 6) <= 0
  }

  ghost predicate HasRate(p: Price, u: Usage, keys: seq<string>) {
    exists rate :: IsRate(p, ContextOf(u), keys, rate)
  }

  /** The token counts are numbers that split the input, and every count has its rate. */
  ghost predicate TokensKnown(p: Price, u: Usage) {
    var input, cached, write, output := Amount(u.input, 0), Amount(u.cached, 0), Amount(u.cacheWrite, 0), Amount(u.output, 0);
    && Parses(u.input, 0) && Parses(u.output, 0) && output >= 0
    && (u.context.Some? ==> Parses(u.context, 0) && Amount(u.context, 0) >= 0)
    && (u.cached.Some? ==> Parses(u.cached, 0)) && (u.cacheWrite.Some? ==> Parses(u.cacheWrite, 0))
    && cached >= 0 && write >= 0 && cached + write <= input
    && HasRate(p, u, ["input"]) && HasRate(p, u, ["output"])
    && (cached > 0 ==> HasRate(p, u, ["cachedInput", "cacheRead", "cachedInputRate"]))
    && (write > 0 ==> HasRate(p, u, ["cacheWrite", "cacheWriteInput", "cacheWriteRate"]))
  }

  ghost predicate Priceable(p: Price, u: Usage) {
    && !p.gaps && p.minorDigits.Some? && p.minorDigits.value <= 3
    && if p.perUnit then Parses(u.unitQuantity, 6) && Amount(u.unitQuantity, 6) >= 0 && Parses(p.unitAmount, 9)
       else && TokensKnown(p, u) && (forall i :: 0 <= i < |p.fees| ==> FeeKnown(p.fees[i], u))
            && (u.batch ==> Parses(p.batchDiscount, 2))
  }

  lemma RatedSome(p: Price, u: Usage)
    ensures
      var r := RatedOf(EffectiveRates(p, u));
      && (r.input.Some? <==> HasRate(p, u, ["input"]))
      && (r.cached.Some? <==> HasRate(p, u, ["cachedInput", "cacheRead", "cachedInputRate"]))
      && (r.output.Some? <==> HasRate(p, u, ["output"]))
      && (r.write.Some? <==> HasRate(p, u, ["cacheWrite", "cacheWriteInput", "cacheWriteRate"]))
  {
    hide EffectiveRates, RateOf, HasRate;
    RateSome(p, u, ["input"]);
    RateSome(p, u, CACHED_KEYS);
    RateSome(p, u, ["output"]);
    RateSome(p, u, WRITE_KEYS);
  }

  lemma RateSome(p: Price, u: Usage, keys: seq<string>)
    ensures RateOf(EffectiveRates(p, u), keys).Some? <==> HasRate(p, u, keys)
  {
    hide EffectiveRates, RateOf, IsRate, ContextOf;
    RateIsOffered(p, u, keys);
    var rate := RateOf(EffectiveRates(p, u), keys);
    if rate.Some? {
      assert IsRate(p, ContextOf(u), keys, rate.value);
    }
  }

  lemma TokensKnownIff(p: Price, u: Usage)
    ensures !TokenLines(EffectiveRates(p, u), u).incomplete <==> TokensKnown(p, u)
  {
    hide EffectiveRates, RatedOf, HasRate, ParseScaled, CountedLines;
    RatedSome(p, u);
    ContextIs(u);
  }

  lemma {:induction false} FeesKnownIff(fees: seq<Fee>, u: Usage)
    ensures !AllFeeLines(fees, u).incomplete <==> forall i :: 0 <= i < |fees| ==> FeeKnown(fees[i], u)
  {
    if fees != [] {
      hide FeeLines, FeeKnown;
      var init, last := fees[..|fees| - 1], fees[|fees| - 1];
      assert forall i :: 0 <= i < |init| ==> init[i] == fees[i];
      FeesKnownIff(init, u);
      FeeKnownIff(last, u);
    }
  }

  lemma FeeKnownIff(fee: Fee, u: Usage)
    ensures !FeeLines(fee, u).incomplete <==> FeeKnown(fee, u)
  {
    hide ParseScaled, RoundDivide;
  }

  /** An estimate is refused as incomplete if and only if something that the usage needs is
      missing, unreadable or inconsistent. */
  lemma IncompleteIff(p: Price, u: Usage)
    ensures Estimated(p, u).Incomplete? <==> !Priceable(p, u)
  {
    hide ParseScaled, RoundDivide, TokenLines, AllFeeLines, TokensKnown, FeeKnown, EffectiveRates, Subtotal, Discounted;
    TokensKnownIff(p, u);
    FeesKnownIff(p.fees, u);
  }
}
