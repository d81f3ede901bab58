/** The provider object: reply handlers update its fields in place, and the last complete rows
    are published as totals and as one sum per period. */
module AnthropicProvider {
  import opened AdminParser
  import opened AdminRefresh
  import opened Sums
  import Calendar

  class Backend {
    var generation: nat
    var loading: bool
    var connectivityPending: bool
    var usage: Report
    var cost: Report
    var requests: set<Request>

    function State(): Provider
      reads this
    {
      Provider(generation, loading, connectivityPending, usage, cost, requests)
    }

    /** Rows are looked up by their texts, so these are unique. */
    ghost predicate Valid()
      reads this
    {
      UniqueKeys(usage.rows) && UniqueKeys(cost.rows)
    }

    constructor ()
      ensures Valid() && State() == INITIAL
    {
      generation, loading, connectivityPending, usage, cost, requests := 0, false, false, NO_REPORT, NO_REPORT, {};
    }

    method Refresh(hasApiKey: bool, hasAdminKey: bool)
      requires Valid()
      modifies this
      ensures Valid() && State() == Step(old(State()), Event.Refresh(hasApiKey, hasAdminKey))
    {
      if !hasApiKey && !hasAdminKey {
        return;
      }
      generation := generation + 1;
      loading := true;
      connectivityPending := hasApiKey;
      usage := Report(hasAdminKey, false, false, 0, [], usage.last);
      cost := Report(hasAdminKey, false, false, 0, [], cost.last);
      if hasApiKey {
        requests := requests + {ModelsRequest(generation)};
      }
      if hasAdminKey {
        CountPage(Usage);
        CountPage(Cost);
        requests := requests + {PageRequest(Usage, generation), PageRequest(Cost, generation)};
      }
    }

    method CountPage(c: Capability)
      modifies `usage, `cost
      ensures State() == WithReport(old(State()), c, ReportOf(old(State()), c).(pages := ReportOf(old(State()), c).pages + 1))
    {
      match c {
        case Usage => usage := usage.(pages := usage.pages + 1);
        case Cost => cost := cost.(pages := cost.pages + 1);
      }
    }

    method CancelRefresh()
      requires Valid()
      modifies this
      ensures Valid() && State() == Step(old(State()), Event.CancelRefresh)
    {
      generation := generation + 1;
      loading := false;
    }

    method FinalizeRefresh()
      modifies `loading
      ensures State() == Finalized(old(State()))
    {
      if connectivityPending || usage.pending || cost.pending {
        return;
      }
      loading := false;
    }

    method HandleModelsReply(g: nat)
      requires Valid() && ModelsRequest(g) in requests
      modifies this
      ensures Valid() && State() == Step(old(State()), ModelsReply(g))
    {
      requests := requests - {ModelsRequest(g)};
      if g != generation {
        return;
      }
      connectivityPending := false;
      FinalizeRefresh();
    }

    /** A failure keeps the last complete rows. */
    method FinishCapability(c: Capability, complete: bool)
      modifies `usage, `cost
      ensures State() == WithReport(old(State()), c, Finished(ReportOf(old(State()), c), complete))
    {
      match c {
        case Usage =>
          usage := usage.(pending := false, succeeded := complete, partial := !complete && usage.rows != []);
          if complete {
            usage := usage.(last := usage.rows);
          }
        case Cost =>
          cost := cost.(pending := false, succeeded := complete, partial := !complete && cost.rows != []);
          if complete {
            cost := cost.(last := cost.rows);
          }
      }
    }

    /** Folds a page onto the rows of its capability. */
    method FoldPage(c: Capability, page: Page) returns (valid: bool)
      requires Valid()
      modifies `usage, `cost
      ensures Valid() && valid == ValidPage(c, page)
      ensures
        var r := ReportOf(old(State()), c);
        State() == WithReport(old(State()), c, r.(rows := Folded(r.rows, PageAccepted(c, page))))
    {
      var rows;
      match c {
        case Usage =>
          valid, rows := ParsePage(c, page, usage.rows);
          usage := usage.(rows := rows);
        case Cost =>
          valid, rows := ParsePage(c, page, cost.rows);
          cost := cost.(rows := rows);
      }
    }

    method HandleAdminReply(c: Capability, g: nat, answer: Answer)
      requires Valid() && PageRequest(c, g) in requests
      modifies this
      ensures Valid() && State() == Step(old(State()), PageReply(c, g, answer))
    {
      requests := requests - {PageRequest(c, g)};
      if g != generation {
        return;
      }
      var again := HandleCurrent(c, answer);
      if again {
        requests := requests + {PageRequest(c, g)};
        assert requests == old(requests);
        return;
      }
      FinalizeRefresh();
    }

    /** Folds the page of the current refresh; counts the next one, or finishes. */
    method HandleCurrent(c: Capability, answer: Answer) returns (again: bool)
      requires Valid()
      modifies `usage, `cost
      ensures Valid() && again == AsksAgain(ReportOf(old(State()), c), c, answer)
      ensures State() == WithReport(old(State()), c, Answered(ReportOf(old(State()), c), c, answer))
    {
      hide UniqueKeys, Folded, PageAccepted;
      var valid := false;
      if answer.Document? {
        valid := FoldPage(c, answer.page);
      }
      again := valid && WantsMore(answer.page, ReportOf(State(), c).pages);
      if again {
        CountPage(c);
      } else {
        FinishCapability(c, valid && !answer.page.hasMore.value);
      }
    }
  }

  // ---------- Published sums ----------

  datatype Period = Period(start: int, end: int)

  function PeriodOf(row: Row): Period {
    Period(row.key.start, row.key.end)
  }

  function SumAll(rows: seq<Row>): Tally {
    if rows == [] then ZERO else Plus(SumAll(rows[..|rows| - 1]), rows[|rows| - 1].tally)
  }

  function Selected(rows: seq<Row>, keep: Row -> bool): seq<Row> {
    if rows == [] then []
    else
      var earlier, last := Selected(rows[..|rows| - 1], keep), rows[|rows| - 1];
      if keep(last) then earlier + [last] else earlier
  }

  function OfPeriod(period: Period): Row -> bool {
    (row: Row) => PeriodOf(row) == period
  }

  function UtcDate(time: int): Calendar.Date {
    Calendar.DateOf(Calendar.DayNumber(Calendar.EPOCH) + time / Calendar.DAY_MS)
  }

  function OnDay(today: Calendar.Date): Row -> bool {
    (row: Row) => UtcDate(row.key.start) == today
  }

  function InMonth(today: Calendar.Date): Row -> bool {
    (row: Row) => UtcDate(row.key.start).year == today.year && UtcDate(row.key.start).month == today.month
  }

  function PeriodsIn(rows: seq<Row>): set<Period> {
    set row | row in rows :: PeriodOf(row)
  }

  lemma PeriodsInNext(rows: seq<Row>, row: Row)
    ensures PeriodsIn(rows + [row]) == PeriodsIn(rows) + {PeriodOf(row)}
  {}

  /** Every period has the sum of its rows. */
  ghost predicate PeriodsMatch(periods: map<Period, Tally>, rows: seq<Row>) {
    && periods.Keys == PeriodsIn(rows)
    && forall p :: TallyOf(periods, p) == SumAll(Selected(rows, OfPeriod(p)))
  }

  lemma SelectedNext(rows: seq<Row>, row: Row, keep: Row -> bool)
    ensures SumAll(Selected(rows + [row], keep)) ==
              if keep(row) then Plus(SumAll(Selected(rows, keep)), row.tally) else SumAll(Selected(rows, keep))
  {
    assert (rows + [row])[..|rows|] == rows;
    assert (Selected(rows, keep) + [row])[..|Selected(rows, keep)|] == Selected(rows, keep);
  }

  function TallyOf(periods: map<Period, Tally>, p: Period): Tally {
    if p in periods then periods[p] else ZERO
  }

  lemma PeriodGrows(periods: map<Period, Tally>, rows: seq<Row>, row: Row, tally: Tally, p: Period)
    requires TallyOf(periods, p) == SumAll(Selected(rows, OfPeriod(p)))
    requires tally == Plus(TallyOf(periods, PeriodOf(row)), row.tally)
    ensures TallyOf(periods[PeriodOf(row) := tally], p) == SumAll(Selected(rows + [row], OfPeriod(p)))
  {
    SelectedNext(rows, row, OfPeriod(p));
  }

  lemma PeriodsGrow(periods: map<Period, Tally>, rows: seq<Row>, row: Row, tally: Tally, after: map<Period, Tally>)
    requires PeriodsMatch(periods, rows) && after == periods[PeriodOf(row) := tally]
    requires tally == Plus(TallyOf(periods, PeriodOf(row)), row.tally)
    ensures PeriodsMatch(after, rows + [row])
  {
    PeriodsInNext(rows, row);
    forall p
      ensures TallyOf(after, p) == SumAll(Selected(rows + [row], OfPeriod(p)))
    {
      PeriodGrows(periods, rows, row, tally, p);
    }
  }

  /** A field of the tallies, or any other sum of fields. */
  ghost predicate Additive(f: Tally -> int) {
    f(ZERO) == 0 && forall a, b :: f(Plus(a, b)) == f(a) + f(b)
  }

  ghost function Project(periods: map<Period, Tally>, f: Tally -> int): map<Period, int> {
    map p | p in periods :: f(periods[p])
  }

  /** Nothing is lost or counted twice between the periods and the total, in any field. */
  ghost predicate Conserved(periods: map<Period, Tally>, total: Tally) {
    forall f :: Additive(f) ==> Total(Project(periods, f)) == f(total)
  }

  lemma ConservedGrows(periods: map<Period, Tally>, total: Tally, p: Period, before: Tally, more: Tally)
    requires Conserved(periods, total) && before == TallyOf(periods, p)
    ensures Conserved(periods[p := Plus(before, more)], Plus(total, more))
  {
    forall f | Additive(f)
      ensures Total(Project(periods[p := Plus(before, more)], f)) == f(Plus(total, more))
    {
      var after := f(Plus(before, more));
      assert Project(periods[p := Plus(before, more)], f) == Project(periods, f)[p := after];
      TotalUpdate(Project(periods, f), p, after);
    }
  }

  ghost predicate Summed(rows: seq<Row>, total: Tally, periods: map<Period, Tally>) {
    total == SumAll(rows) && PeriodsMatch(periods, rows) && Conserved(periods, total)
  }

  lemma NothingSummed()
    ensures Summed([], ZERO, map[])
  {
    assert forall f :: Project(map[], f) == map[];
    assert forall p :: Selected([], OfPeriod(p)) == [];
  }

  lemma SummedGrows(rows: seq<Row>, row: Row, total: Tally, periods: map<Period, Tally>, before: Tally)
    requires Summed(rows, total, periods)
    requires before == TallyOf(periods, PeriodOf(row))
    ensures Summed(rows + [row], Plus(total, row.tally), periods[PeriodOf(row) := Plus(before, row.tally)])
  {
    assert (rows + [row])[..|rows|] == rows;
    PeriodsGrow(periods, rows, row, Plus(before, row.tally), periods[PeriodOf(row) := Plus(before, row.tally)]);
    ConservedGrows(periods, total, PeriodOf(row), before, row.tally);
  }

  method SumPeriods(rows: seq<Row>) returns (total: Tally, periods: map<Period, Tally>)
    ensures Summed(rows, total, periods)
  {
    total, periods := ZERO, map[];
    NothingSummed();
    for i := 0 to |rows|
      invariant Summed(rows[..i], total, periods)
    {
      var row := rows[i];
      assert rows[..i + 1] == rows[..i] + [row];
      var before := TallyOf(periods, PeriodOf(row));
      SummedGrows(rows[..i], row, total, periods, before);
      total := Plus(total, row.tally);
      periods := periods[PeriodOf(row) := Plus(before, row.tally)];
    }
    assert rows[..|rows|] == rows;
  }

  function CostWhere(rows: seq<Row>, keep: Row -> bool): int {
    SumAll(Selected(rows, keep)).microUsd
  }

  lemma CostNext(rows: seq<Row>, i: nat, keep: Row -> bool)
    requires i < |rows|
    ensures CostWhere(rows[..i + 1], keep) == CostWhere(rows[..i], keep) + if keep(rows[i]) then rows[i].tally.microUsd else 0
  {
    assert rows[..i + 1] == rows[..i] + [rows[i]];
    SelectedNext(rows[..i], rows[i], keep);
  }

  method SumNear(rows: seq<Row>, today: Calendar.Date) returns (daily: int, monthly: int)
    ensures daily == CostWhere(rows, OnDay(today)) && monthly == CostWhere(rows, InMonth(today))
  {
    daily, monthly := 0, 0;
    ghost var onDay, inMonth := OnDay(today), InMonth(today);
    for i := 0 to |rows|
      invariant daily == CostWhere(rows[..i], onDay) && monthly == CostWhere(rows[..i], inMonth)
    {
      CostNext(rows, i, onDay);
      CostNext(rows, i, inMonth);
      var date, cost := UtcDate(rows[i].key.start), rows[i].tally.microUsd;
      if date == today {
        daily := daily + cost;
      }
      if date.year == today.year && date.month == today.month {
        monthly := monthly + cost;
      }
    }
    assert rows[..|rows|] == rows;
  }

  function MicroUsdOf(): Tally -> int {
    (t: Tally) => t.microUsd
  }

  /** Period costs sum to the total; today's and this month's costs are those of their rows. */
  method PublishCost(rows: seq<Row>, today: Calendar.Date)
    returns (total: int, daily: int, monthly: int, periods: map<Period, Tally>)
    ensures total == SumAll(rows).microUsd == Total(Project(periods, MicroUsdOf()))
    ensures daily == CostWhere(rows, OnDay(today)) && monthly == CostWhere(rows, InMonth(today))
    ensures PeriodsMatch(periods, rows)
  {
    var sum;
    sum, periods := SumPeriods(rows);
    total := sum.microUsd;
    assert Additive(MicroUsdOf());
    daily, monthly := SumNear(rows, today);
  }

  function InputOf(): Tally -> int {
    (t: Tally) => t.input + t.cacheRead + t.cacheCreation
  }

  function OutputOf(): Tally -> int {
    (t: Tally) => t.output
  }

  /** Tokens likewise: the published input counts cached tokens too. */
  method PublishUsage(rows: seq<Row>) returns (input: int, output: int, periods: map<Period, Tally>)
    ensures input == Total(Project(periods, InputOf())) == InputOf()(SumAll(rows))
    ensures output == Total(Project(periods, OutputOf())) == SumAll(rows).output
    ensures PeriodsMatch(periods, rows)
  {
    var sum;
    sum, periods := SumPeriods(rows);
    input, output := sum.input + sum.cacheRead + sum.cacheCreation, sum.output;
    assert Additive(InputOf()) && Additive(OutputOf());
  }

  /** Folding keeps the grand total, so what is published is the total of all results received. */
  lemma {:induction false} FoldedKeepsTotal(rows: seq<Row>, more: seq<Row>)
    requires UniqueKeys(rows)
    ensures SumAll(Folded(rows, more)) == Plus(SumAll(rows), SumAll(more))
  {
    if more != [] {
      var init, last := more[..|more| - 1], more[|more| - 1];
      FoldedKeepsTotal(rows, init);
      AddedKeepsTotal(Folded(rows, init), last);
    }
  }

  lemma AddedKeepsTotal(rows: seq<Row>, row: Row)
    ensures SumAll(Added(rows, row)) == Plus(SumAll(rows), row.tally)
  {
    var i := Position(rows, TextOf(row.key));
    if i < |rows| {
      ReplacedTotal(rows, i, row);
    } else {
      assert (rows + [row])[..|rows|] == rows;
    }
  }

  lemma {:induction false} ReplacedTotal(rows: seq<Row>, i: nat, row: Row)
    requires i < |rows|
    ensures SumAll(rows[i := rows[i].(tally := Plus(rows[i].tally, row.tally))]) == Plus(SumAll(rows), row.tally)
  {
    var init, after := rows[..|rows| - 1], rows[i := rows[i].(tally := Plus(rows[i].tally, row.tally))];
    if i < |init| {
      assert after[..|rows| - 1] == init[i := rows[i].(tally := Plus(rows[i].tally, row.tally))];
      ReplacedTotal(init, i, row);
    } else {
      assert after[..|rows| - 1] == init;
    }
  }
}
