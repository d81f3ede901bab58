/** From the decoded results of a report to what is published: which reports are valid, which
    results a row collects, and what the published sums are sums of. */
module AdminTotals {
  import opened Options
  import opened AdminParser
  import opened AdminRefresh
  import opened AnthropicProvider
  import opened Sums
  import BillingCycle
  import Calendar

  // ---------- Valid results ----------

  ghost predicate AreCounts(counts: seq<Option<int>>) {
    forall i :: 0 <= i < |counts| ==> counts[i].Some? && counts[i].value >= 0
  }

  /** All token counts are there and none is negative; a cost is an amount of US dollars. */
  ghost predicate IsResult(c: Capability, e: Entry) {
    match c
    case Usage => e.UsageEntry? && AreCounts([e.uncached, e.cacheRead, e.output]) && AreCounts(e.creation)
    case Cost => e.CostEntry? && e.usd && e.amount.Some? && MicroUsd(e.amount.value).Some?
  }

  ghost predicate IsResultBucket(c: Capability, b: Bucket) {
    && b.start.Some? && b.end.Some? && b.start.value < b.end.value && b.results.Some?
    && forall i :: 0 <= i < |b.results.value| ==> IsResult(c, b.results.value[i])
  }

  lemma {:induction false} CountsSum(counts: seq<Option<int>>)
    ensures CountSum(counts).Some? <==> AreCounts(counts)
    ensures CountSum(counts).Some? ==> CountSum(counts).value == SumOver(counts, Given())
  {
    if counts != [] {
      var init, last := counts[..|counts| - 1], counts[|counts| - 1];
      assert counts == init + [last];
      CountsSum(init);
    }
  }

  function Given(): Option<int> -> int {
    (n: Option<int>) => if n.Some? then n.value else 0
  }

  lemma ResultHasRow(c: Capability, start: int, end: int, e: Entry)
    ensures RowOf(c, start, end, e).Some? <==> IsResult(c, e)
  {
    if e.UsageEntry? {
      var three := [e.uncached, e.cacheRead, e.output];
      assert AreCounts(three) <==> IsCount(three[0]) && IsCount(three[1]) && IsCount(three[2]);
      CountsSum(e.creation);
    }
  }

  lemma {:induction false} AllValidIff(rows: seq<Option<Row>>)
    ensures AllValid(rows) <==> forall i :: 0 <= i < |rows| ==> rows[i].Some?
  {
    if rows != [] {
      var init := rows[..|rows| - 1];
      assert rows == init + [rows[|rows| - 1]];
      AllValidIff(init);
    }
  }

  lemma BucketIsValidIff(c: Capability, b: Bucket)
    ensures AllValid(BucketRows(c, b)) <==> IsResultBucket(c, b)
  {
    hide RowOf, IsResult;
    AllValidIff(BucketRows(c, b));
    if ValidBucket(b) {
      forall i | 0 <= i < |b.results.value|
        ensures BucketRows(c, b)[i].Some? <==> IsResult(c, b.results.value[i])
      {
        ResultHasRow(c, b.start.value, b.end.value, b.results.value[i]);
      }
    }
  }

  lemma {:induction false} BucketsAreValidIff(c: Capability, buckets: seq<Bucket>)
    ensures AllValid(PageRows(c, buckets)) <==> forall i :: 0 <= i < |buckets| ==> IsResultBucket(c, buckets[i])
  {
    hide IsResultBucket, BucketRows, Accepted;
    if buckets != [] {
      var init, last := buckets[..|buckets| - 1], buckets[|buckets| - 1];
      assert buckets == init + [last];
      BucketsAreValidIff(c, init);
      AcceptedConcat(PageRows(c, init), BucketRows(c, last));
      BucketIsValidIff(c, last);
    }
  }

  /** A page is valid if and only if it has data and says whether more follows, and every bucket
      has a period and results. */
  lemma PageIsValidIff(c: Capability, p: Page)
    ensures ValidPage(c, p) <==>
              && p.data.Some? && p.hasMore.Some?
              && forall i :: 0 <= i < |p.data.value| ==> IsResultBucket(c, p.data.value[i])
  {
    if p.data.Some? {
      BucketsAreValidIff(c, p.data.value);
    }
  }

  // ---------- Sums over a report ----------

  /** What a result in a bucket from `start` to `end` amounts to. */
  type Measure = (int, int, Entry) -> int

  function In(f: Measure, start: int, end: int): Entry -> int {
    (e: Entry) => f(start, end, e)
  }

  ghost function InBucket(f: Measure): Bucket -> int {
    (b: Bucket) => if b.start.Some? && b.end.Some? && b.results.Some? then SumOver(b.results.value, In(f, b.start.value, b.end.value)) else 0
  }

  ghost function InAnswer(f: Measure): Answer -> int {
    (a: Answer) => if a.Document? && a.page.data.Some? then SumOver(a.page.data.value, InBucket(f)) else 0
  }

  /** Over all results of all buckets of all pages. */
  ghost function ReportTotal(answers: seq<Answer>, f: Measure): int {
    SumOver(answers, InAnswer(f))
  }

  /** A row amounts to what its result does. */
  ghost predicate Agrees(c: Capability, f: Measure, g: Row -> int) {
    forall start, end, e :: RowOf(c, start, end, e).Some? ==> g(RowOf(c, start, end, e).value) == f(start, end, e)
  }

  lemma AcceptedSum(rows: seq<Option<Row>>, row: Row, g: Row -> int)
    requires AllValid(rows)
    ensures SumOver(Accepted(rows + [Some(row)]), g) == SumOver(Accepted(rows), g) + g(row)
  {
    AcceptedSnoc(rows, Some(row));
    SumOverConcat(Accepted(rows), [row], g);
  }

  function RowsOf(c: Capability, start: int, end: int, results: seq<Entry>): seq<Option<Row>> {
    seq(|results|, i requires 0 <= i < |results| => RowOf(c, start, end, results[i]))
  }

  lemma {:induction false} ResultsSum(c: Capability, start: int, end: int, results: seq<Entry>, f: Measure, g: Row -> int)
    requires AllValid(RowsOf(c, start, end, results)) && Agrees(c, f, g)
    ensures SumOver(Accepted(RowsOf(c, start, end, results)), g) == SumOver(results, In(f, start, end))
  {
    hide RowOf, AllValid;
    if results != [] {
      var init, last := results[..|results| - 1], results[|results| - 1];
      var row := RowOf(c, start, end, last);
      assert RowsOf(c, start, end, results) == RowsOf(c, start, end, init) + [row];
      ValidSnoc(RowsOf(c, start, end, init), row);
      ResultsSum(c, start, end, init, f, g);
      AcceptedSum(RowsOf(c, start, end, init), row.value, g);
    }
  }

  lemma ValidSnoc(rows: seq<Option<Row>>, row: Option<Row>)
    requires AllValid(rows + [row])
    ensures AllValid(rows) && row.Some?
  {
    assert (rows + [row])[..|rows|] == rows;
  }

  lemma BucketSum(c: Capability, b: Bucket, f: Measure, g: Row -> int)
    requires AllValid(BucketRows(c, b)) && Agrees(c, f, g)
    ensures SumOver(Accepted(BucketRows(c, b)), g) == InBucket(f)(b)
  {
    BucketIsValidIff(c, b);
    assert BucketRows(c, b) == RowsOf(c, b.start.value, b.end.value, b.results.value);
    ResultsSum(c, b.start.value, b.end.value, b.results.value, f, g);
  }

  lemma {:induction false} BucketsSum(c: Capability, buckets: seq<Bucket>, f: Measure, g: Row -> int)
    requires AllValid(PageRows(c, buckets)) && Agrees(c, f, g)
    ensures SumOver(Accepted(PageRows(c, buckets)), g) == SumOver(buckets, InBucket(f))
  {
    hide BucketRows, Accepted, Agrees, InBucket;
    if buckets != [] {
      var init, last := buckets[..|buckets| - 1], buckets[|buckets| - 1];
      AcceptedConcat(PageRows(c, init), BucketRows(c, last));
      BucketsSum(c, init, f, g);
      BucketSum(c, last, f, g);
      SumOverConcat(Accepted(PageRows(c, init)), Accepted(BucketRows(c, last)), g);
    }
  }

  lemma {:induction false} AnswersSum(c: Capability, answers: seq<Answer>, f: Measure, g: Row -> int)
    requires forall i :: 0 <= i < |answers| ==> answers[i].Document? && ValidPage(c, answers[i].page)
    requires Agrees(c, f, g)
    ensures SumOver(Results(c, answers), g) == ReportTotal(answers, f)
  {
    hide Agrees, PageRows, Accepted, AllValid, InBucket;
    if answers != [] {
      var init, last := answers[..|answers| - 1], answers[|answers| - 1];
      AnswersSum(c, init, f, g);
      BucketsSum(c, last.page.data.value, f, g);
      SumOverConcat(Results(c, init), PageAccepted(c, last.page), g);
    }
  }

  // ---------- From received results to the sums of rows ----------

  function Counting(keep: Row -> bool, pick: Tally -> int): Row -> int {
    (row: Row) => if keep(row) then pick(row.tally) else 0
  }

  lemma {:induction false} SelectedSum(rows: seq<Row>, keep: Row -> bool, pick: Tally -> int)
    requires Additive(pick)
    ensures pick(SumAll(Selected(rows, keep))) == SumOver(rows, Counting(keep, pick))
  {
    if rows != [] {
      var init, last := rows[..|rows| - 1], rows[|rows| - 1];
      assert rows == init + [last];
      SelectedSum(init, keep, pick);
      SelectedNext(init, last, keep);
    }
  }

  /** Rows that are folded together are chosen together. */
  ghost predicate Respects(keep: Row -> bool) {
    forall a: Row, b: Row :: TextOf(a.key) == TextOf(b.key) ==> keep(a) == keep(b)
  }

  lemma AddedSum(rows: seq<Row>, row: Row, keep: Row -> bool, pick: Tally -> int)
    requires Respects(keep) && Additive(pick)
    ensures SumOver(Added(rows, row), Counting(keep, pick)) == SumOver(rows, Counting(keep, pick)) + Counting(keep, pick)(row)
  {
    var i, g := Position(rows, TextOf(row.key)), Counting(keep, pick);
    if i < |rows| {
      var sum := rows[i].(tally := Plus(rows[i].tally, row.tally));
      SumOverUpdate(rows, i, sum, g);
      assert keep(sum) == keep(rows[i]) == keep(row);
    } else {
      SumOverConcat(rows, [row], g);
    }
  }

  lemma {:induction false} FoldedSum(more: seq<Row>, keep: Row -> bool, pick: Tally -> int)
    requires Respects(keep) && Additive(pick)
    ensures SumOver(Folded([], more), Counting(keep, pick)) == SumOver(more, Counting(keep, pick))
  {
    hide Respects, Additive, Added;
    if more != [] {
      var init, last := more[..|more| - 1], more[|more| - 1];
      FoldedSum(init, keep, pick);
      AddedSum(Folded([], init), last, keep, pick);
    }
  }

  /** `f` over the results that meet a condition. */
  function Only(when: (int, int, Entry) -> bool, f: Measure): Measure {
    (start: int, end: int, e: Entry) => if when(start, end, e) then f(start, end, e) else 0
  }

  /** Rows are chosen as their results are, and amount to the same. */
  ghost predicate Chosen(c: Capability, keep: Row -> bool, when: (int, int, Entry) -> bool, pick: Tally -> int, f: Measure) {
    forall start, end, e :: RowOf(c, start, end, e).Some? ==>
      var row := RowOf(c, start, end, e).value;
      keep(row) == when(start, end, e) && pick(row.tally) == f(start, end, e)
  }

  /** What the chosen rows of a report hold is what the chosen results of its pages amount to. */
  lemma RowsAreReceived(c: Capability, answers: seq<Answer>, keep: Row -> bool, when: (int, int, Entry) -> bool,
                        pick: Tally -> int, f: Measure)
    requires Complete(c, answers) && Respects(keep) && Additive(pick) && Chosen(c, keep, when, pick, f)
    ensures pick(SumAll(Selected(Folded([], Results(c, answers)), keep))) == ReportTotal(answers, Only(when, f))
  {
    AllPagesValid(c, answers);
    hide Respects, Additive, Complete, ValidPage, Selected, Results, Folded;
    assert Agrees(c, Only(when, f), Counting(keep, pick));
    AnswersSum(c, answers, Only(when, f), Counting(keep, pick));
    FoldedSum(Results(c, answers), keep, pick);
    SelectedSum(Folded([], Results(c, answers)), keep, pick);
  }

  lemma AllPagesValid(c: Capability, answers: seq<Answer>)
    requires Complete(c, answers)
    ensures forall i :: 0 <= i < |answers| ==> answers[i].Document? && ValidPage(c, answers[i].page)
  {
    var init := answers[..|answers| - 1];
    assert forall i :: 0 <= i < |init| ==> answers[i] == init[i];
  }

  // ---------- What is published ----------

  ghost function Uncached(): Measure {
    (start: int, end: int, e: Entry) => if e.UsageEntry? then Given()(e.uncached) else 0
  }

  ghost function Cached(): Measure {
    (start: int, end: int, e: Entry) => if e.UsageEntry? then Given()(e.cacheRead) else 0
  }

  ghost function Created(): Measure {
    (start: int, end: int, e: Entry) => if e.UsageEntry? then SumOver(e.creation, Given()) else 0
  }

  /** Uncached, cached and cache-creating tokens. */
  ghost function Input(): Measure {
    (start: int, end: int, e: Entry) => Uncached()(start, end, e) + Cached()(start, end, e) + Created()(start, end, e)
  }

  ghost function Output(): Measure {
    (start: int, end: int, e: Entry) => if e.UsageEntry? then Given()(e.output) else 0
  }

  ghost function Dollars(): Measure {
    (start: int, end: int, e: Entry) => if e.CostEntry? && e.amount.Some? then Given()(MicroUsd(e.amount.value)) else 0
  }

  function Always(): (int, int, Entry) -> bool {
    (start: int, end: int, e: Entry) => true
  }

  function During(p: Period): (int, int, Entry) -> bool {
    (start: int, end: int, e: Entry) => start == p.start && end == p.end
  }

  /** A bucket that starts between two midnights of UTC, counted from 1970. */
  function StartsWithin(day: int, next: int): (int, int, Entry) -> bool {
    (start: int, end: int, e: Entry) => 86_400_000 * day <= start < 86_400_000 * next
  }

  function AnyRow(): Row -> bool {
    (row: Row) => true
  }

  lemma {:induction false} AllSelected(rows: seq<Row>)
    ensures Selected(rows, AnyRow()) == rows
  {
    if rows != [] {
      AllSelected(rows[..|rows| - 1]);
    }
  }

  lemma UsagePicks(start: int, end: int, e: Entry)
    requires RowOf(Usage, start, end, e).Some?
    ensures
      var t := RowOf(Usage, start, end, e).value.tally;
      && t.input == Uncached()(start, end, e) && t.cacheRead == Cached()(start, end, e)
      && t.cacheCreation == Created()(start, end, e) && t.output == Output()(start, end, e)
      && InputOf()(t) == Input()(start, end, e) && OutputOf()(t) == Output()(start, end, e)
  {
    CountsSum(e.creation);
  }

  /** The published usage of a complete report: its input is the sum of the uncached, cached and
      cache-creating tokens of all results, its output the sum of their output tokens, in all and
      for the buckets of each period. */
  lemma UsageIsReceived(answers: seq<Answer>, p: Period)
    requires Complete(Usage, answers)
    ensures
      var rows := Folded([], Results(Usage, answers));
      && InputOf()(SumAll(rows)) == ReportTotal(answers, Only(Always(), Input()))
      && SumAll(rows).output == ReportTotal(answers, Only(Always(), Output()))
      && InputOf()(SumAll(Selected(rows, OfPeriod(p)))) == ReportTotal(answers, Only(During(p), Input()))
      && SumAll(Selected(rows, OfPeriod(p))).output == ReportTotal(answers, Only(During(p), Output()))
  {
    hide Complete, Results, Folded, ReportTotal, Only;
    forall start, end, e | RowOf(Usage, start, end, e).Some?
      ensures
        var t := RowOf(Usage, start, end, e).value.tally;
        InputOf()(t) == Input()(start, end, e) && OutputOf()(t) == Output()(start, end, e)
    {
      UsagePicks(start, end, e);
    }
    AllSelected(Folded([], Results(Usage, answers)));
    RowsAreReceived(Usage, answers, AnyRow(), Always(), InputOf(), Input());
    RowsAreReceived(Usage, answers, AnyRow(), Always(), OutputOf(), Output());
    RowsAreReceived(Usage, answers, OfPeriod(p), During(p), InputOf(), Input());
    RowsAreReceived(Usage, answers, OfPeriod(p), During(p), OutputOf(), Output());
  }

  ghost function Epoch(): int {
    Calendar.DayNumber(Calendar.Date(1970, 1, 1))
  }

  lemma DaysSince(start: int, day: int)
    ensures day <= start / 86_400_000 <==> 86_400_000 * day <= start
  {}

  /** The UTC day of an instant is the one whose midnights enclose it. */
  lemma DayEncloses(start: int, end: int, e: Entry, today: Calendar.Date)
    requires Calendar.Valid(today)
    ensures
      var day := Calendar.DayNumber(today) - Epoch();
      UtcDate(start) == today <==> StartsWithin(day, day + 1)(start, end, e)
  {
    var day := Calendar.DayNumber(today) - Epoch();
    hide Calendar.DayNumber, Calendar.DateOf;
    Calendar.DateOfNumber(today);
    DaysSince(start, day);
    DaysSince(start, day + 1);
  }

  lemma MonthHasDays(n: int, year: int, month: int)
    requires 1 <= month <= 12
    ensures
      var d := Calendar.DateOf(n);
      d.year == year && d.month == month <==>
      Calendar.DayNumber(Calendar.First(year, month)) <= n < Calendar.DayNumber(Calendar.NextMonth(Calendar.First(year, month)))
  {
    var first := Calendar.First(year, month);
    Calendar.NextMonthAhead(first);
    if Calendar.DayNumber(first) <= n < Calendar.DayNumber(Calendar.NextMonth(first)) {
      BillingCycle.DayOfMonth(year, month, n - Calendar.DayNumber(first));
    }
  }

  /** The month of an instant is the one whose first midnight, and whose successor's, enclose it. */
  lemma MonthEncloses(start: int, end: int, e: Entry, today: Calendar.Date)
    requires Calendar.Valid(today)
    ensures
      var first := Calendar.First(today.year, today.month);
      var day, next := Calendar.DayNumber(first) - Epoch(), Calendar.DayNumber(Calendar.NextMonth(first)) - Epoch();
      UtcDate(start).year == today.year && UtcDate(start).month == today.month <==> StartsWithin(day, next)(start, end, e)
  {
    var first := Calendar.First(today.year, today.month);
    var day, next := Calendar.DayNumber(first) - Epoch(), Calendar.DayNumber(Calendar.NextMonth(first)) - Epoch();
    hide Calendar.DayNumber, Calendar.DateOf;
    MonthHasDays(Epoch() + start / Calendar.DAY_MS, today.year, today.month);
    DaysSince(start, day);
    DaysSince(start, next);
  }

  lemma DollarsPick(start: int, end: int, e: Entry)
    requires RowOf(Cost, start, end, e).Some?
    ensures MicroUsdOf()(RowOf(Cost, start, end, e).value.tally) == Dollars()(start, end, e)
  {
    assert RowOf(Cost, start, end, e).value.tally.microUsd == Given()(MicroUsd(e.amount.value));
  }

  /** Cost rows are chosen as the results they come from. */
  ghost predicate ChoosesCosts(keep: Row -> bool, when: (int, int, Entry) -> bool) {
    forall start, end, e :: RowOf(Cost, start, end, e).Some? ==> keep(RowOf(Cost, start, end, e).value) == when(start, end, e)
  }

  lemma CostRows(answers: seq<Answer>, keep: Row -> bool, when: (int, int, Entry) -> bool)
    requires Complete(Cost, answers) && Respects(keep)
    requires ChoosesCosts(keep, when)
    ensures SumAll(Selected(Folded([], Results(Cost, answers)), keep)).microUsd == ReportTotal(answers, Only(when, Dollars()))
  {
    hide Respects, Complete, Results, Folded, Selected;
    forall start, end, e | RowOf(Cost, start, end, e).Some?
      ensures MicroUsdOf()(RowOf(Cost, start, end, e).value.tally) == Dollars()(start, end, e)
    {
      DollarsPick(start, end, e);
    }
    RowsAreReceived(Cost, answers, keep, when, MicroUsdOf(), Dollars());
  }

  /** The published cost of a complete report is the sum of the rounded amounts of all results,
      in all and for the buckets of each period. */
  lemma CostIsReceived(answers: seq<Answer>, p: Period)
    requires Complete(Cost, answers)
    ensures
      var rows := Folded([], Results(Cost, answers));
      && SumAll(rows).microUsd == ReportTotal(answers, Only(Always(), Dollars()))
      && SumAll(Selected(rows, OfPeriod(p))).microUsd == ReportTotal(answers, Only(During(p), Dollars()))
  {
    AllSelected(Folded([], Results(Cost, answers)));
    CostRows(answers, AnyRow(), Always());
    CostRows(answers, OfPeriod(p), During(p));
  }

  lemma RowKeepsStart(c: Capability, start: int, end: int, e: Entry)
    requires RowOf(c, start, end, e).Some?
    ensures RowOf(c, start, end, e).value.key.start == start
  {}

  lemma DatesRespectTexts(today: Calendar.Date)
    ensures Respects(OnDay(today)) && Respects(InMonth(today))
  {
    hide UtcDate;
  }

  lemma DayChooses(today: Calendar.Date, day: int)
    requires Calendar.Valid(today) && day == Calendar.DayNumber(today) - Epoch()
    ensures ChoosesCosts(OnDay(today), StartsWithin(day, day + 1))
  {
    hide RowOf, UtcDate, StartsWithin, Epoch, Calendar.DayNumber;
    forall start, end, e | RowOf(Cost, start, end, e).Some?
      ensures OnDay(today)(RowOf(Cost, start, end, e).value) == StartsWithin(day, day + 1)(start, end, e)
    {
      RowKeepsStart(Cost, start, end, e);
      DayEncloses(start, end, e, today);
    }
  }

  lemma MonthChooses(today: Calendar.Date, day: int, next: int)
    requires Calendar.Valid(today) && day == Calendar.DayNumber(Calendar.First(today.year, today.month)) - Epoch()
    requires next == Calendar.DayNumber(Calendar.NextMonth(Calendar.First(today.year, today.month))) - Epoch()
    ensures ChoosesCosts(InMonth(today), StartsWithin(day, next))
  {
    hide RowOf, UtcDate, StartsWithin, Epoch, Calendar.DayNumber;
    forall start, end, e | RowOf(Cost, start, end, e).Some?
      ensures InMonth(today)(RowOf(Cost, start, end, e).value) == StartsWithin(day, next)(start, end, e)
    {
      RowKeepsStart(Cost, start, end, e);
      MonthEncloses(start, end, e, today);
    }
  }

  /** The published cost of today is the sum over the buckets that start today. */
  lemma TodaysCostIsReceived(answers: seq<Answer>, today: Calendar.Date)
    requires Complete(Cost, answers) && Calendar.Valid(today)
    ensures
      var day := Calendar.DayNumber(today) - Epoch();
      CostWhere(Folded([], Results(Cost, answers)), OnDay(today)) == ReportTotal(answers, Only(StartsWithin(day, day + 1), Dollars()))
  {
    hide ChoosesCosts, Complete, Results, Folded, Respects, Calendar.DayNumber, Calendar.Valid, StartsWithin, OnDay;
    var day := Calendar.DayNumber(today) - Epoch();
    DayChooses(today, day);
    DatesRespectTexts(today);
    CostRows(answers, OnDay(today), StartsWithin(day, day + 1));
  }

  /** The published cost of this month is the sum over the buckets that start in it. */
  lemma MonthsCostIsReceived(answers: seq<Answer>, today: Calendar.Date)
    requires Complete(Cost, answers) && Calendar.Valid(today)
    ensures
      var first := Calendar.First(today.year, today.month);
      var day, next := Calendar.DayNumber(first) - Epoch(), Calendar.DayNumber(Calendar.NextMonth(first)) - Epoch();
      CostWhere(Folded([], Results(Cost, answers)), InMonth(today)) == ReportTotal(answers, Only(StartsWithin(day, next), Dollars()))
  {
    var first := Calendar.First(today.year, today.month);
    var day, next := Calendar.DayNumber(first) - Epoch(), Calendar.DayNumber(Calendar.NextMonth(first)) - Epoch();
    hide ChoosesCosts, Complete, Results, Folded, Respects, Calendar.DayNumber, StartsWithin, InMonth;
    MonthChooses(today, day, next);
    DatesRespectTexts(today);
    CostRows(answers, InMonth(today), StartsWithin(day, next));
  }

  /** After every run the published usage is that of the results of one complete report. */
  lemma RunPublishesUsage(run: seq<Event>)
    requires IsRun(run)
    ensures
      var p := After(run);
      p.usage.last == [] || exists g ::
        && SettledReport(run, p, Usage, g)
        && InputOf()(SumAll(p.usage.last)) == ReportTotal(Replies(run, Usage, g), Only(Always(), Input()))
        && SumAll(p.usage.last).output == ReportTotal(Replies(run, Usage, g), Only(Always(), Output()))
  {
    RunIsSound(run, Usage);
    var p := After(run);
    if p.usage.last != [] {
      var g :| SettledReport(run, p, Usage, g);
      UsageIsReceived(Replies(run, Usage, g), Period(0, 0));
    }
  }

  /** And the published cost. */
  lemma RunPublishesCost(run: seq<Event>)
    requires IsRun(run)
    ensures
      var p := After(run);
      p.cost.last == [] || exists g ::
        SettledReport(run, p, Cost, g) && SumAll(p.cost.last).microUsd == ReportTotal(Replies(run, Cost, g), Only(Always(), Dollars()))
  {
    RunIsSound(run, Cost);
    var p := After(run);
    if p.cost.last != [] {
      var g :| SettledReport(run, p, Cost, g);
      CostIsReceived(Replies(run, Cost, g), Period(0, 0));
    }
  }

  // ---------- Which results a row collects ----------

  /** A result whose period and names, joined by bars, are `text`. */
  function Named(text: RowText): (int, int, Entry) -> bool {
    (start: int, end: int, e: Entry) =>
      match e
      case Malformed => false
      case UsageEntry(model, project, tier, _, _, _, _) => text == RowText(start, end, model + "|" + project + "|" + tier + "|")
      case CostEntry(model, project, tier, lineItem, _, _) =>
        text == RowText(start, end, model + "|" + project + "|" + tier + "|" + lineItem)
  }

  function WithText(text: RowText): Row -> bool {
    (row: Row) => TextOf(row.key) == text
  }

  lemma {:induction false} SumForSelected(rows: seq<Row>, text: RowText)
    ensures SumFor(rows, text) == SumAll(Selected(rows, WithText(text)))
  {
    if rows != [] {
      var init, last := rows[..|rows| - 1], rows[|rows| - 1];
      assert rows == init + [last];
      SumForSelected(init, text);
      SelectedNext(init, last, WithText(text));
    }
  }

  lemma TextIsJoined(c: Capability, start: int, end: int, e: Entry, text: RowText)
    requires RowOf(c, start, end, e).Some?
    ensures WithText(text)(RowOf(c, start, end, e).value) == Named(text)(start, end, e)
  {
    if c.Usage? {
      assert e.model + "|" + e.project + "|" + e.tier + "|" + "" == e.model + "|" + e.project + "|" + e.tier + "|";
    }
  }

  lemma TallyIsReceived(c: Capability, answers: seq<Answer>, text: RowText, pick: Tally -> int, f: Measure)
    requires Complete(c, answers) && Additive(pick) && Chosen(c, WithText(text), Named(text), pick, f)
    ensures pick(TallyAt(Folded([], Results(c, answers)), text)) == ReportTotal(answers, Only(Named(text), f))
  {
    AllPagesValid(c, answers);
    hide Additive, Complete, ValidPage, Selected, Results, Folded, WithText, Named;
    assert Agrees(c, Only(Named(text), f), Counting(WithText(text), pick));
    AnswersSum(c, answers, Only(Named(text), f), Counting(WithText(text), pick));
    SelectedSum(Results(c, answers), WithText(text), pick);
    SumForSelected(Results(c, answers), text);
    FoldedFromNothing(Results(c, answers), text);
  }

  function UncachedOf(): Tally -> int {
    (t: Tally) => t.input
  }

  function CachedOf(): Tally -> int {
    (t: Tally) => t.cacheRead
  }

  function CreatedOf(): Tally -> int {
    (t: Tally) => t.cacheCreation
  }

  /** The usage row of a text holds, field by field, the counts of the results so named. */
  lemma UsageRowIsReceived(answers: seq<Answer>, text: RowText)
    requires Complete(Usage, answers)
    ensures
      var t := TallyAt(Folded([], Results(Usage, answers)), text);
      && t.input == ReportTotal(answers, Only(Named(text), Uncached()))
      && t.cacheRead == ReportTotal(answers, Only(Named(text), Cached()))
      && t.cacheCreation == ReportTotal(answers, Only(Named(text), Created()))
      && t.output == ReportTotal(answers, Only(Named(text), Output()))
  {
    hide Complete, Results, Folded, TallyAt, RowOf, ReportTotal, Only, Named, WithText, Uncached, Cached, Created, Output, Input, InputOf;
    forall start, end, e | RowOf(Usage, start, end, e).Some?
      ensures
        var row := RowOf(Usage, start, end, e).value;
        && WithText(text)(row) == Named(text)(start, end, e)
        && UncachedOf()(row.tally) == Uncached()(start, end, e) && CachedOf()(row.tally) == Cached()(start, end, e)
        && CreatedOf()(row.tally) == Created()(start, end, e) && OutputOf()(row.tally) == Output()(start, end, e)
    {
      TextIsJoined(Usage, start, end, e, text);
      UsagePicks(start, end, e);
    }
    TallyIsReceived(Usage, answers, text, UncachedOf(), Uncached());
    TallyIsReceived(Usage, answers, text, CachedOf(), Cached());
    TallyIsReceived(Usage, answers, text, CreatedOf(), Created());
    TallyIsReceived(Usage, answers, text, OutputOf(), Output());
  }

  /** The cost row of a text holds the amounts of the results so named. */
  lemma CostRowIsReceived(answers: seq<Answer>, text: RowText)
    requires Complete(Cost, answers)
    ensures TallyAt(Folded([], Results(Cost, answers)), text).microUsd == ReportTotal(answers, Only(Named(text), Dollars()))
  {
    hide Complete, Results, Folded, TallyAt, RowOf, ReportTotal, Only, Named, WithText, Dollars;
    forall start, end, e | RowOf(Cost, start, end, e).Some?
      ensures
        var row := RowOf(Cost, start, end, e).value;
        WithText(text)(row) == Named(text)(start, end, e) && MicroUsdOf()(row.tally) == Dollars()(start, end, e)
    {
      TextIsJoined(Cost, start, end, e, text);
      DollarsPick(start, end, e);
    }
    TallyIsReceived(Cost, answers, text, MicroUsdOf(), Dollars());
  }

  // ---------- When names stay apart ----------

  /** Results with different periods or names have different texts. */
  ghost predicate TextsApart(results: seq<Row>) {
    forall a, b :: a in results && b in results && TextOf(a.key) == TextOf(b.key) ==> a.key == b.key
  }

  ghost predicate HasKey(rows: seq<Row>, key: RowKey) {
    exists row :: row in rows && row.key == key
  }

  lemma {:induction false} RowsHaveResultKeys(results: seq<Row>)
    ensures forall row :: row in Folded([], results) ==> HasKey(results, row.key)
  {
    if results != [] {
      var init, last := results[..|results| - 1], results[|results| - 1];
      assert results == init + [last];
      RowsHaveResultKeys(init);
      var before := Folded([], init);
      forall row | row in Folded([], results)
        ensures HasKey(results, row.key)
      {
        if row != last {
          var i :| 0 <= i < |Folded([], results)| && Folded([], results)[i] == row;
          assert before[i] in before && before[i].key == row.key;
          var r :| r in init && r.key == row.key;
          assert r in results;
        } else {
          assert last in results;
        }
      }
    }
  }

  lemma RowOfResult(results: seq<Row>, r: Row) returns (row: Row)
    requires r in results
    ensures row in Folded([], results) && TextOf(row.key) == TextOf(r.key)
  {
    FoldedConserves([], results, TextOf(r.key));
    row := Folded([], results)[Position(Folded([], results), TextOf(r.key))];
  }

  lemma OneRowPerText(rows: seq<Row>, a: RowKey, b: RowKey)
    requires UniqueKeys(rows) && HasKey(rows, a) && HasKey(rows, b) && TextOf(a) == TextOf(b)
    ensures a == b
  {
    var i :| 0 <= i < |rows| && rows[i].key == a;
    var j :| 0 <= j < |rows| && rows[j].key == b;
    assert i == j;
  }

  /** Every result keeps a row under its own period and names if and only if no two results
      that differ in them have the same text. */
  lemma EveryResultHasRowIff(results: seq<Row>)
    ensures (forall r :: r in results ==> HasKey(Folded([], results), r.key)) <==> TextsApart(results)
  {
    var rows := Folded([], results);
    RowsHaveResultKeys(results);
    FoldedFromNothing(results, RowText(0, 0, ""));
    if TextsApart(results) {
      forall r | r in results
        ensures HasKey(rows, r.key)
      {
        var row := RowOfResult(results, r);
        var source :| source in results && source.key == row.key;
        assert row.key == r.key;
      }
    }
    if forall r :: r in results ==> HasKey(rows, r.key) {
      forall a, b | a in results && b in results && TextOf(a.key) == TextOf(b.key)
        ensures a.key == b.key
      {
        OneRowPerText(rows, a.key, b.key);
      }
    }
  }

  predicate BarFree(s: string) {
    '|' !in s
  }

  lemma FirstBar(x: string, y: string, u: string, v: string)
    requires BarFree(x) && BarFree(y) && x + "|" + u == y + "|" + v
    ensures x == y && u == v
  {
    var s, t := x + "|" + u, y + "|" + v;
    assert s[|x|] == '|' && t[|y|] == '|';
    if |x| < |y| {
      assert false;
    } else if |y| < |x| {
      assert false;
    }
    assert s[..|x|] == x && t[..|y|] == y && s[|x| + 1..] == u && t[|y| + 1..] == v;
  }

  lemma JoinedBars(a: string, b: string, c: string, d: string)
    ensures a + "|" + b + "|" + c + "|" + d == a + "|" + (b + "|" + (c + "|" + d))
  {}

  /** Names without bars never share a text; the line item may have some. */
  lemma BarFreeNamesStayApart(a: RowKey, b: RowKey)
    requires BarFree(a.model) && BarFree(a.project) && BarFree(a.tier)
    requires BarFree(b.model) && BarFree(b.project) && BarFree(b.tier)
    ensures TextOf(a) == TextOf(b) ==> a == b
  {
    if TextOf(a) == TextOf(b) {
      JoinedBars(a.model, a.project, a.tier, a.lineItem);
      JoinedBars(b.model, b.project, b.tier, b.lineItem);
      FirstBar(a.model, b.model, a.project + "|" + (a.tier + "|" + a.lineItem), b.project + "|" + (b.tier + "|" + b.lineItem));
      FirstBar(a.project, b.project, a.tier + "|" + a.lineItem, b.tier + "|" + b.lineItem);
      FirstBar(a.tier, b.tier, a.lineItem, b.lineItem);
    }
  }

  lemma SharedTextFolds(first: Row, second: Row)
    requires TextOf(first.key) == TextOf(second.key)
    ensures Folded([], [first, second]) == [first.(tally := Plus(first.tally, second.tally))]
  {
    hide TextOf, Plus;
    assert [first, second][..1] == [first] && [first][..0] == [];
    assert Folded([], [first]) == [first];
  }

  /** With bars in their names, results of a model and a project are folded into the row of others. */
  lemma BarsMerge(first: Row, second: Row, x: string, y: string, z: string)
    requires first.key == second.key.(model := x + "|" + y, project := z)
    requires second.key.model == x && second.key.project == y + "|" + z
    ensures first.key != second.key
    ensures Folded([], [first, second]) == [first.(tally := Plus(first.tally, second.tally))]
  {
    assert |first.key.model| > |second.key.model|;
    assert x + "|" + y + "|" + z == x + "|" + (y + "|" + z);
    SharedTextFolds(first, second);
  }
}
