/** Folding cost observations into days and drivers: a gauge counts once, by its last
    observation, every other observation counts by itself. */
module SpendingDays {
  import opened Sums

  datatype Observation = Observation(date: string, provider: string, model: string, currency: string, quality: string,
                                     gauge: bool, source: string, scope: string, window: string, value: real)

  datatype GaugeKey = GaugeKey(date: string, provider: string, model: string, currency: string, quality: string,
                               source: string, scope: string, window: string)

  datatype DailyCost = DailyCost(actual: real, estimated: real, actualSamples: nat, estimatedSamples: nat) {
    function Combined(): real {
      actual + estimated
    }
  }

  datatype DriverKey = DriverKey(provider: string, model: string, quality: string)

  datatype Driver = Driver(value: real, samples: nat)

  function KeyOf(o: Observation): GaugeKey {
    GaugeKey(o.date, o.provider, o.model, o.currency, o.quality, o.source, o.scope, o.window)
  }

  predicate IsEstimated(o: Observation) {
    o.quality == "estimated"
  }

  function SumOf(rows: seq<Observation>): real {
    if rows == [] then 0.0 else SumOf(rows[..|rows| - 1]) + rows[|rows| - 1].value
  }

  // ---------- What counts ----------

  function Plain(rows: seq<Observation>, currency: string): seq<Observation> {
    if rows == [] then []
    else
      var earlier, last := Plain(rows[..|rows| - 1], currency), rows[|rows| - 1];
      if last.currency == currency && !last.gauge then earlier + [last] else earlier
  }

  function Gauges(rows: seq<Observation>, currency: string): map<GaugeKey, Observation> {
    if rows == [] then map[]
    else
      var earlier, last := Gauges(rows[..|rows| - 1], currency), rows[|rows| - 1];
      if last.currency == currency && last.gauge then earlier[KeyOf(last) := last] else earlier
  }

  predicate SameGauge(a: Observation, b: Observation) {
    && a.gauge && b.gauge && a.date == b.date && a.provider == b.provider && a.model == b.model && a.currency == b.currency
    && a.quality == b.quality && a.source == b.source && a.scope == b.scope && a.window == b.window
  }

  /** Row `i` is the last one of its gauge. */
  predicate IsLatest(rows: seq<Observation>, currency: string, i: int) {
    && 0 <= i < |rows| && rows[i].gauge && rows[i].currency == currency
    && forall j :: i < j < |rows| ==> !SameGauge(rows[j], rows[i])
  }

  ghost predicate HasLatest(rows: seq<Observation>, currency: string, key: GaugeKey, o: Observation) {
    exists i :: IsLatest(rows, currency, i) && rows[i] == o && KeyOf(o) == key
  }

  /** Each gauge is kept by its last row. */
  lemma {:induction false} GaugesAreLatest(rows: seq<Observation>, currency: string, key: GaugeKey, o: Observation)
    ensures key in Gauges(rows, currency) && Gauges(rows, currency)[key] == o <==> HasLatest(rows, currency, key, o)
  {
    if rows != [] {
      var init, last := rows[..|rows| - 1], rows[|rows| - 1];
      GaugesAreLatest(init, currency, key, o);
      if last.currency == currency && last.gauge && KeyOf(last) == key {
        assert IsLatest(rows, currency, |rows| - 1);
      } else {
        LatestStays(rows, currency, key, o);
      }
    }
  }

  lemma LatestStays(rows: seq<Observation>, currency: string, key: GaugeKey, o: Observation)
    requires rows != []
    requires var last := rows[|rows| - 1]; !(last.currency == currency && last.gauge && KeyOf(last) == key)
    ensures HasLatest(rows, currency, key, o) <==> HasLatest(rows[..|rows| - 1], currency, key, o)
  {
    var init := rows[..|rows| - 1];
    forall i | 0 <= i < |init| && KeyOf(rows[i]) == key
      ensures IsLatest(rows, currency, i) <==> IsLatest(init, currency, i)
    {
      assert forall j :: i < j < |init| ==> rows[j] == init[j];
    }
    if HasLatest(init, currency, key, o) {
      var i :| IsLatest(init, currency, i) && init[i] == o && KeyOf(o) == key;
      assert IsLatest(rows, currency, i) && rows[i] == o;
    }
    if HasLatest(rows, currency, key, o) {
      var i :| IsLatest(rows, currency, i) && rows[i] == o && KeyOf(o) == key;
      assert IsLatest(init, currency, i) && init[i] == o;
    }
  }

  function Values(gauges: map<GaugeKey, Observation>): map<GaugeKey, real> {
    map k | k in gauges :: gauges[k].value
  }

  /** The observations that count: the plain ones, then one per gauge. */
  method CollectEffective(rows: seq<Observation>, currency: string) returns (effective: seq<Observation>)
    ensures SumOf(effective) == SumOf(Plain(rows, currency)) + RealTotal(Values(Gauges(rows, currency)))
    ensures |effective| == |Plain(rows, currency)| + |Gauges(rows, currency)|
    ensures forall o :: o in effective <==> o in Plain(rows, currency) || o in Gauges(rows, currency).Values
  {
    effective := [];
    var gauges := map[];
    for i := 0 to |rows|
      invariant effective == Plain(rows[..i], currency)
      invariant gauges == Gauges(rows[..i], currency)
    {
      assert rows[..i + 1][..i] == rows[..i];
      if rows[i].currency != currency {
        continue;
      }
      if rows[i].gauge {
        gauges := gauges[KeyOf(rows[i]) := rows[i]];
      } else {
        effective := effective + [rows[i]];
      }
    }
    assert rows[..|rows|] == rows;
    effective := AppendValues(effective, gauges);
  }

  method AppendValues(plain: seq<Observation>, gauges: map<GaugeKey, Observation>) returns (all: seq<Observation>)
    ensures SumOf(all) == SumOf(plain) + RealTotal(Values(gauges))
    ensures |all| == |plain| + |gauges|
    ensures forall o :: o in all <==> o in plain || o in gauges.Values
  {
    all := plain;
    var left := gauges;
    while left != map[]
      invariant SumOf(all) + RealTotal(Values(left)) == SumOf(plain) + RealTotal(Values(gauges))
      invariant |all| + |left| == |plain| + |gauges|
      invariant left.Keys <= gauges.Keys && forall k :: k in left ==> left[k] == gauges[k]
      invariant forall o :: o in all <==> o in plain || exists k :: k in gauges && k !in left && gauges[k] == o
      decreases |left|
    {
      var k :| k in left;
      assert (all + [left[k]])[..|all|] == all;
      RealTotalRemove(Values(left), k);
      assert Values(left) - {k} == Values(left - {k});
      assert |left - {k}| == |left| - 1;
      all := all + [left[k]];
      left := left - {k};
    }
  }

  // ---------- Days and drivers ----------

  function AddDay(day: DailyCost, o: Observation): DailyCost {
    if IsEstimated(o) then day.(estimated := day.estimated + o.value, estimatedSamples := day.estimatedSamples + 1)
    else day.(actual := day.actual + o.value, actualSamples := day.actualSamples + 1)
  }

  const EMPTY_DAY := DailyCost(0.0, 0.0, 0, 0)

  function DriverOf(o: Observation): DriverKey {
    DriverKey(o.provider, if o.model == "" then o.provider else o.model, o.quality)
  }

  /** The part of the observations that `keep` selects. */
  function Part(rows: seq<Observation>, keep: Observation -> bool): seq<Observation> {
    if rows == [] then []
    else
      var earlier, last := Part(rows[..|rows| - 1], keep), rows[|rows| - 1];
      if keep(last) then earlier + [last] else earlier
  }

  function OfDay(date: string, estimated: bool): Observation -> bool {
    (o: Observation) => o.date == date && IsEstimated(o) == estimated
  }

  function OfDriver(key: DriverKey): Observation -> bool {
    (o: Observation) => DriverOf(o) == key
  }

  function DayOf(rows: seq<Observation>, date: string): DailyCost {
    DailyCost(SumOf(Part(rows, OfDay(date, false))), SumOf(Part(rows, OfDay(date, true))),
              |Part(rows, OfDay(date, false))|, |Part(rows, OfDay(date, true))|)
  }

  function DriverTotal(rows: seq<Observation>, key: DriverKey): Driver {
    Driver(SumOf(Part(rows, OfDriver(key))), |Part(rows, OfDriver(key))|)
  }

  function Lookup<K, V>(m: map<K, V>, k: K, default: V): V {
    if k in m then m[k] else default
  }

  /** A day holds the sums and counts of its own observations; days without any are absent. */
  ghost predicate DaysMatch(days: map<string, DailyCost>, rows: seq<Observation>) {
    && days.Keys == (set o | o in rows :: o.date)
    && forall d :: Lookup(days, d, EMPTY_DAY) == DayOf(rows, d)
  }

  ghost predicate DriversMatch(drivers: map<DriverKey, Driver>, rows: seq<Observation>) {
    && drivers.Keys == (set o | o in rows :: DriverOf(o))
    && forall k :: Lookup(drivers, k, NO_DRIVER) == DriverTotal(rows, k)
  }

  const NO_DRIVER := Driver(0.0, 0)

  function DayValues(days: map<string, DailyCost>): map<string, real> {
    map d | d in days :: days[d].Combined()
  }

  function DriverValues(drivers: map<DriverKey, Driver>): map<DriverKey, real> {
    map k | k in drivers :: drivers[k].value
  }

  lemma PartGrows(rows: seq<Observation>, o: Observation, keep: Observation -> bool)
    ensures Part(rows + [o], keep) == Part(rows, keep) + if keep(o) then [o] else []
    ensures SumOf(Part(rows + [o], keep)) == SumOf(Part(rows, keep)) + if keep(o) then o.value else 0.0
  {
    assert (rows + [o])[..|rows|] == rows;
    assert (Part(rows, keep) + [o])[..|Part(rows, keep)|] == Part(rows, keep);
  }

  lemma DayGrows(rows: seq<Observation>, o: Observation, date: string)
    ensures DayOf(rows + [o], date) == if o.date == date then AddDay(DayOf(rows, date), o) else DayOf(rows, date)
  {
    hide Part, SumOf;
    PartGrows(rows, o, OfDay(date, false));
    PartGrows(rows, o, OfDay(date, true));
  }

  function AddDriver(driver: Driver, o: Observation): Driver {
    Driver(driver.value + o.value, driver.samples + 1)
  }

  lemma DriverGrows(rows: seq<Observation>, o: Observation, key: DriverKey)
    ensures DriverTotal(rows + [o], key) ==
              if DriverOf(o) == key then AddDriver(DriverTotal(rows, key), o) else DriverTotal(rows, key)
  {
    hide Part, SumOf;
    PartGrows(rows, o, OfDriver(key));
  }

  lemma DaysGrow(days: map<string, DailyCost>, rows: seq<Observation>, o: Observation, day: DailyCost)
    requires DaysMatch(days, rows) && day == Lookup(days, o.date, EMPTY_DAY)
    ensures DaysMatch(days[o.date := AddDay(day, o)], rows + [o])
    ensures RealTotal(DayValues(days[o.date := AddDay(day, o)])) == RealTotal(DayValues(days)) + o.value
  {
    var after := days[o.date := AddDay(day, o)];
    forall d
      ensures Lookup(after, d, EMPTY_DAY) == DayOf(rows + [o], d)
    {
      DayGrows(rows, o, d);
    }
    RealTotalUpdate(DayValues(days), o.date, AddDay(day, o).Combined());
    assert DayValues(after) == DayValues(days)[o.date := AddDay(day, o).Combined()];
  }

  lemma DriversGrow(drivers: map<DriverKey, Driver>, rows: seq<Observation>, o: Observation, driver: Driver)
    requires DriversMatch(drivers, rows) && driver == Lookup(drivers, DriverOf(o), NO_DRIVER)
    ensures DriversMatch(drivers[DriverOf(o) := AddDriver(driver, o)], rows + [o])
    ensures RealTotal(DriverValues(drivers[DriverOf(o) := AddDriver(driver, o)])) == RealTotal(DriverValues(drivers)) + o.value
  {
    var after := drivers[DriverOf(o) := AddDriver(driver, o)];
    forall k
      ensures Lookup(after, k, NO_DRIVER) == DriverTotal(rows + [o], k)
    {
      DriverGrows(rows, o, k);
    }
    RealTotalUpdate(DriverValues(drivers), DriverOf(o), AddDriver(driver, o).value);
    assert DriverValues(after) == DriverValues(drivers)[DriverOf(o) := AddDriver(driver, o).value];
  }

  /** Both maps describe the same observations, and each splits their sum without loss. */
  ghost predicate Folded(days: map<string, DailyCost>, drivers: map<DriverKey, Driver>, rows: seq<Observation>) {
    && DaysMatch(days, rows) && DriversMatch(drivers, rows)
    && RealTotal(DayValues(days)) == SumOf(rows) == RealTotal(DriverValues(drivers))
  }

  lemma FoldedGrows(days: map<string, DailyCost>, drivers: map<DriverKey, Driver>, rows: seq<Observation>, o: Observation,
                    day: DailyCost, driver: Driver)
    requires Folded(days, drivers, rows)
    requires day == Lookup(days, o.date, EMPTY_DAY) && driver == Lookup(drivers, DriverOf(o), NO_DRIVER)
    ensures Folded(days[o.date := AddDay(day, o)], drivers[DriverOf(o) := AddDriver(driver, o)], rows + [o])
  {
    assert (rows + [o])[..|rows|] == rows;
    DaysGrow(days, rows, o, day);
    DriversGrow(drivers, rows, o, driver);
  }

  lemma NothingFolded()
    ensures Folded(map[], map[], [])
  {}

  /** One pass fills both maps. */
  method FoldCosts(effective: seq<Observation>) returns (days: map<string, DailyCost>, drivers: map<DriverKey, Driver>)
    ensures Folded(days, drivers, effective)
  {
    days, drivers := map[], map[];
    NothingFolded();
    for i := 0 to |effective|
      invariant Folded(days, drivers, effective[..i])
    {
      var o := effective[i];
      assert effective[..i + 1] == effective[..i] + [o];
      var day, driver := Lookup(days, o.date, EMPTY_DAY), Lookup(drivers, DriverOf(o), NO_DRIVER);
      FoldedGrows(days, drivers, effective[..i], o, day, driver);
      days := days[o.date := AddDay(day, o)];
      drivers := drivers[DriverOf(o) := AddDriver(driver, o)];
    }
    assert effective[..|effective|] == effective;
  }

  // ---------- What the maps hold ----------

  function Actual(date: string): Observation -> bool {
    (o: Observation) => o.date == date && o.quality != "estimated"
  }

  function Estimated(date: string): Observation -> bool {
    (o: Observation) => o.date == date && o.quality == "estimated"
  }

  /** Observations without a model count under their provider. */
  function DrivenBy(provider: string, model: string, quality: string): Observation -> bool {
    (o: Observation) => o.provider == provider && o.quality == quality && model == if o.model == "" then provider else o.model
  }

  function PlainIn(currency: string): Observation -> bool {
    (o: Observation) => o.currency == currency && !o.gauge
  }

  lemma {:induction false} SamePart(rows: seq<Observation>, f: Observation -> bool, g: Observation -> bool)
    requires forall o :: f(o) == g(o)
    ensures Part(rows, f) == Part(rows, g)
  {
    if rows != [] {
      SamePart(rows[..|rows| - 1], f, g);
    }
  }

  lemma {:induction false} PlainIsPart(rows: seq<Observation>, currency: string)
    ensures Plain(rows, currency) == Part(rows, PlainIn(currency))
  {
    if rows != [] {
      PlainIsPart(rows[..|rows| - 1], currency);
    }
  }

  /** Actual and estimated amounts are kept apart by the quality, and drivers by provider, model
      and quality. */
  lemma FoldedMeans(days: map<string, DailyCost>, drivers: map<DriverKey, Driver>, rows: seq<Observation>,
                    date: string, provider: string, model: string, quality: string)
    requires Folded(days, drivers, rows)
    ensures date in days <==> exists o :: o in rows && o.date == date
    ensures date in days ==>
              && days[date].actual == SumOf(Part(rows, Actual(date))) && days[date].actualSamples == |Part(rows, Actual(date))|
              && days[date].estimated == SumOf(Part(rows, Estimated(date)))
              && days[date].estimatedSamples == |Part(rows, Estimated(date))|
    ensures DriverKey(provider, model, quality) in drivers ==>
              && drivers[DriverKey(provider, model, quality)].value == SumOf(Part(rows, DrivenBy(provider, model, quality)))
              && drivers[DriverKey(provider, model, quality)].samples == |Part(rows, DrivenBy(provider, model, quality))|
  {
    hide Part, SumOf, RealTotal, DayValues, DriverValues;
    SamePart(rows, OfDay(date, false), Actual(date));
    SamePart(rows, OfDay(date, true), Estimated(date));
    SamePart(rows, OfDriver(DriverKey(provider, model, quality)), DrivenBy(provider, model, quality));
    assert Lookup(days, date, EMPTY_DAY) == DayOf(rows, date);
    assert Lookup(drivers, DriverKey(provider, model, quality), NO_DRIVER) == DriverTotal(rows, DriverKey(provider, model, quality));
  }
}
