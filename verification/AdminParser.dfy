/** Organisation reports: decimal cent amounts at the edge of 64 bits, and pages of results
    folded into rows with unique texts. */
module AdminParser {
  import opened Options
  import opened Decimal
  import opened MoneyText

  // ---------- Amounts ----------

  const MICRO_PER_CENT := 10_000

  datatype Parts = Parts(integer: string, fraction: string)

  /** Digits, and optionally a point and more digits. */
  function PartsOfNumeral(s: string): (r: Option<Parts>)
    ensures r.Some? ==>
              && AllDigits(r.value.integer) && AllDigits(r.value.fraction) && r.value.integer != ""
              && s == WithFraction(r.value.integer, r.value.fraction)
  {
    var point := PointIndex(s);
    if point == 0 || point == |s| - 1 || !AllDigits(s[..point]) then None
    else if point == |s| then Some(Parts(s, ""))
    else if AllDigits(s[point + 1..]) then Some(Parts(s[..point], s[point + 1..])) else None
  }

  function Magnitude(integer: string, fraction: string): Option<nat>
    requires AllDigits(integer) && AllDigits(fraction)
  {
    if Value(integer) > MAX64 / MICRO_PER_CENT then None
    else
      var value := Value(integer) * MICRO_PER_CENT + Value(Filled(fraction, 4));
      var roundUp := |fraction| > 4 && fraction[4] >= '5';
      if roundUp && value == MAX64 then None
      else
        var rounded := if roundUp then value + 1 else value;
        if rounded > MAX64 then None else Some(rounded)
  }

  /** Fractional US cents as whole millionths of a dollar. */
  function MicroUsd(text: string): Option<int> {
    match PartsOfNumeral(StripSign(text).rest)
    case None => None
    case Some(parts) => WithSign(StripSign(text).negative, Magnitude(parts.integer, parts.fraction))
  }

  /** `text` is an optional sign, digits, and optionally a point and more digits. */
  ghost predicate IsNumeral(text: string, negative: bool, integer: string, fraction: string) {
    && AllDigits(integer) && integer != "" && AllDigits(fraction)
    && StripSign(text) == Signed(negative, WithFraction(integer, fraction))
  }

  /** The early refusal of large whole parts changes nothing. */
  lemma MagnitudeIsRounded(integer: string, fraction: string)
    requires AllDigits(integer) && AllDigits(fraction)
    ensures Magnitude(integer, fraction) == if Rounded(integer, fraction, 4) <= MAX64 then Some(Rounded(integer, fraction, 4)) else None
  {
    assert Pow10(2) == 100;
    assert Pow10(4) == MICRO_PER_CENT;
  }

  lemma NumeralHasParts(integer: string, fraction: string)
    requires AllDigits(integer) && integer != "" && AllDigits(fraction)
    ensures PartsOfNumeral(WithFraction(integer, fraction)) == Some(Parts(integer, fraction))
  {
    var s := WithFraction(integer, fraction);
    PointAfterDigits(integer, fraction);
    assert s[..|integer|] == integer;
    if fraction != "" {
      assert s[|integer| + 1..] == fraction;
    }
  }

  /** A numeral is rounded half away from zero at the fourth decimal (`RoundedIsHalfUp`), and
      refused exactly when the rounded magnitude does not fit 63 bits. */
  lemma NumeralIsRounded(text: string, negative: bool, integer: string, fraction: string)
    requires IsNumeral(text, negative, integer, fraction)
    ensures MicroUsd(text) ==
              if Rounded(integer, fraction, 4) > MAX64 then None
              else Some(if negative then -(Rounded(integer, fraction, 4) as int) else Rounded(integer, fraction, 4) as int)
  {
    NumeralHasParts(integer, fraction);
    MagnitudeIsRounded(integer, fraction);
  }

  /** Anything else is refused. */
  lemma OnlyNumerals(text: string)
    requires MicroUsd(text).Some?
    ensures exists negative, integer, fraction :: IsNumeral(text, negative, integer, fraction)
  {
    var parts := PartsOfNumeral(StripSign(text).rest).value;
    assert IsNumeral(text, StripSign(text).negative, parts.integer, parts.fraction);
  }

  // ---------- Results ----------

  datatype Capability = Usage | Cost

  datatype RowKey = RowKey(start: int, end: int, model: string, project: string, tier: string, lineItem: string)

  /** What rows are looked up by: the texts of a key joined by bars. Instants are printed without
      bars, so they stay apart from the rest. */
  datatype RowText = RowText(start: int, end: int, joined: string)

  function TextOf(key: RowKey): RowText {
    RowText(key.start, key.end, key.model + "|" + key.project + "|" + key.tier + "|" + key.lineItem)
  }

  datatype Tally = Tally(input: int, cacheRead: int, cacheCreation: int, output: int, microUsd: int)

  datatype Row = Row(key: RowKey, tally: Tally)

  /** A decoded result; an absent number was no JSON number. */
  datatype Entry =
    | Malformed
    | UsageEntry(model: string, project: string, tier: string, uncached: Option<int>, cacheRead: Option<int>,
                 output: Option<int>, creation: seq<Option<int>>)
    | CostEntry(model: string, project: string, tier: string, lineItem: string, usd: bool, amount: Option<string>)

  datatype Bucket = Bucket(start: Option<int>, end: Option<int>, results: Option<seq<Entry>>)

  datatype Page = Page(data: Option<seq<Bucket>>, hasMore: Option<bool>, nextPage: string)

  function Plus(a: Tally, b: Tally): Tally {
    Tally(a.input + b.input, a.cacheRead + b.cacheRead, a.cacheCreation + b.cacheCreation, a.output + b.output,
          a.microUsd + b.microUsd)
  }

  const ZERO := Tally(0, 0, 0, 0, 0)

  predicate IsCount(n: Option<int>) {
    n.Some? && n.value >= 0
  }

  function CountSum(counts: seq<Option<int>>): Option<int> {
    if counts == [] then Some(0)
    else
      var earlier, last := CountSum(counts[..|counts| - 1]), counts[|counts| - 1];
      if earlier.Some? && IsCount(last) then Some(earlier.value + last.value) else None
  }

  function RowOf(c: Capability, start: int, end: int, e: Entry): Option<Row> {
    match c
    case Usage =>
      if !e.UsageEntry? || !IsCount(e.uncached) || !IsCount(e.cacheRead) || !IsCount(e.output) || CountSum(e.creation).None? then None
      else Some(Row(RowKey(start, end, e.model, e.project, e.tier, ""),
                    Tally(e.uncached.value, e.cacheRead.value, CountSum(e.creation).value, e.output.value, 0)))
    case Cost =>
      if !e.CostEntry? || !e.usd || e.amount.None? || MicroUsd(e.amount.value).None? then None
      else Some(Row(RowKey(start, end, e.model, e.project, e.tier, e.lineItem), Tally(0, 0, 0, 0, MicroUsd(e.amount.value).value)))
  }

  predicate ValidBucket(b: Bucket) {
    b.start.Some? && b.end.Some? && b.start.value < b.end.value && b.results.Some?
  }

  /** What a bucket contributes; an invalid bucket stops the page like an invalid result. */
  function BucketRows(c: Capability, b: Bucket): seq<Option<Row>> {
    if !ValidBucket(b) then [None]
    else seq(|b.results.value|, i requires 0 <= i < |b.results.value| => RowOf(c, b.start.value, b.end.value, b.results.value[i]))
  }

  function PageRows(c: Capability, buckets: seq<Bucket>): seq<Option<Row>> {
    if buckets == [] then [] else PageRows(c, buckets[..|buckets| - 1]) + BucketRows(c, buckets[|buckets| - 1])
  }

  /** The rows before the first invalid one. */
  function Accepted(rows: seq<Option<Row>>): (a: seq<Row>)
    ensures |a| <= |rows|
  {
    if rows == [] then []
    else
      var earlier, last := Accepted(rows[..|rows| - 1]), rows[|rows| - 1];
      if |earlier| == |rows| - 1 && last.Some? then earlier + [last.value] else earlier
  }

  predicate AllValid(rows: seq<Option<Row>>) {
    |Accepted(rows)| == |rows|
  }

  lemma {:induction false} AcceptedConcat(a: seq<Option<Row>>, b: seq<Option<Row>>)
    ensures Accepted(a + b) == if AllValid(a) then Accepted(a) + Accepted(b) else Accepted(a)
  {
    if b == [] {
      assert a + b == a;
    } else {
      assert (a + b)[..|a + b| - 1] == a + b[..|b| - 1];
      AcceptedConcat(a, b[..|b| - 1]);
    }
  }

  predicate WellFormed(p: Page) {
    p.data.Some? && p.hasMore.Some?
  }

  function PageAccepted(c: Capability, p: Page): seq<Row> {
    if WellFormed(p) then Accepted(PageRows(c, p.data.value)) else []
  }

  predicate ValidPage(c: Capability, p: Page) {
    WellFormed(p) && AllValid(PageRows(c, p.data.value))
  }

  // ---------- Folding ----------

  function Position(rows: seq<Row>, text: RowText): (i: nat)
    ensures i <= |rows| && (i < |rows| ==> TextOf(rows[i].key) == text)
    ensures forall j :: 0 <= j < i ==> TextOf(rows[j].key) != text
  {
    if rows == [] then 0
    else
      var i := Position(rows[..|rows| - 1], text);
      if i < |rows| - 1 || TextOf(rows[|rows| - 1].key) == text then i else i + 1
  }

  function Added(rows: seq<Row>, row: Row): seq<Row> {
    var i := Position(rows, TextOf(row.key));
    if i < |rows| then rows[i := rows[i].(tally := Plus(rows[i].tally, row.tally))] else rows + [row]
  }

  function Folded(rows: seq<Row>, more: seq<Row>): seq<Row> {
    if more == [] then rows else Added(Folded(rows, more[..|more| - 1]), more[|more| - 1])
  }

  predicate UniqueKeys(rows: seq<Row>) {
    forall i, j :: 0 <= i < j < |rows| ==> TextOf(rows[i].key) != TextOf(rows[j].key)
  }

  /** The index of the rows by their texts. */
  ghost predicate IsIndex(indexes: map<RowText, nat>, rows: seq<Row>) {
    forall text :: Knows(indexes, rows, text)
  }

  ghost predicate Knows(indexes: map<RowText, nat>, rows: seq<Row>, text: RowText) {
    if text in indexes then indexes[text] == Position(rows, text) < |rows| else Position(rows, text) == |rows|
  }

  lemma PositionAfter(rows: seq<Row>, row: Row, text: RowText)
    requires UniqueKeys(rows)
    ensures UniqueKeys(Added(rows, row))
    ensures Position(Added(rows, row), text) ==
              if Position(rows, text) < |rows| then Position(rows, text)
              else if text == TextOf(row.key) then |rows| else |Added(rows, row)|
  {
    var after := Added(rows, row);
    assert |after| <= |rows| + 1 && forall j :: 0 <= j < |rows| ==> after[j].key == rows[j].key;
  }

  lemma IndexGrows(indexes: map<RowText, nat>, rows: seq<Row>, row: Row)
    requires UniqueKeys(rows) && IsIndex(indexes, rows)
    ensures UniqueKeys(Added(rows, row))
    ensures IsIndex(if TextOf(row.key) in indexes then indexes else indexes[TextOf(row.key) := |rows|], Added(rows, row))
  {
    var known := if TextOf(row.key) in indexes then indexes else indexes[TextOf(row.key) := |rows|];
    PositionAfter(rows, row, TextOf(row.key));
    assert Knows(indexes, rows, TextOf(row.key));
    forall text
      ensures Knows(known, Added(rows, row), text)
    {
      PositionAfter(rows, row, text);
      assert Knows(indexes, rows, text);
    }
  }

  method AddRow(rows: seq<Row>, indexes: map<RowText, nat>, row: Row) returns (after: seq<Row>, known: map<RowText, nat>)
    requires UniqueKeys(rows) && IsIndex(indexes, rows)
    ensures after == Added(rows, row) && UniqueKeys(after) && IsIndex(known, after)
  {
    IndexGrows(indexes, rows, row);
    assert Knows(indexes, rows, TextOf(row.key));
    if TextOf(row.key) in indexes {
      var i := indexes[TextOf(row.key)];
      after, known := rows[i := rows[i].(tally := Plus(rows[i].tally, row.tally))], indexes;
    } else {
      known := indexes[TextOf(row.key) := |rows|];
      after := rows + [row];
    }
  }

  method BuildIndex(rows: seq<Row>) returns (indexes: map<RowText, nat>)
    requires UniqueKeys(rows)
    ensures IsIndex(indexes, rows)
  {
    indexes := map[];
    for i := 0 to |rows|
      invariant forall text :: text in indexes ==> indexes[text] < i && TextOf(rows[indexes[text]].key) == text
      invariant forall j :: 0 <= j < i ==> TextOf(rows[j].key) in indexes
    {
      indexes := indexes[TextOf(rows[i].key) := i];
    }
    assert forall text :: Knows(indexes, rows, text);
  }

  lemma AcceptedSnoc(rows: seq<Option<Row>>, row: Option<Row>)
    requires AllValid(rows)
    ensures Accepted(rows + [row]) == Accepted(rows) + if row.Some? then [row.value] else []
  {
    assert (rows + [row])[..|rows|] == rows;
  }

  /** The next row is accepted, or ends the acceptance. */
  lemma AcceptedNext(all: seq<Option<Row>>, i: nat)
    requires i < |all| && AllValid(all[..i])
    ensures all[i].Some? ==> AllValid(all[..i + 1]) && Accepted(all[..i + 1]) == Accepted(all[..i]) + [all[i].value]
    ensures all[i].None? ==> !AllValid(all) && Accepted(all) == Accepted(all[..i])
  {
    hide Accepted;
    assert all[..i + 1] == all[..i] + [all[i]];
    AcceptedSnoc(all[..i], all[i]);
    if all[i].None? {
      AcceptedConcat(all[..i + 1], all[i + 1..]);
      assert all == all[..i + 1] + all[i + 1..];
    }
  }

  lemma FoldedNext(rows: seq<Row>, more: seq<Row>, row: Row)
    ensures Folded(rows, more + [row]) == Added(Folded(rows, more), row)
  {
    assert (more + [row])[..|more|] == more;
  }

  /** One bucket; stops at the first invalid result, keeping the rows before it. */
  method ParseBucket(c: Capability, b: Bucket, rows: seq<Row>, indexes: map<RowText, nat>)
    returns (ok: bool, after: seq<Row>, known: map<RowText, nat>)
    requires UniqueKeys(rows) && IsIndex(indexes, rows)
    ensures UniqueKeys(after) && IsIndex(known, after)
    ensures ok <==> AllValid(BucketRows(c, b))
    ensures after == Folded(rows, Accepted(BucketRows(c, b)))
  {
    after, known := rows, indexes;
    if !ValidBucket(b) {
      return false, after, known;
    }
    ghost var all := BucketRows(c, b);
    for i := 0 to |b.results.value|
      invariant UniqueKeys(after) && IsIndex(known, after)
      invariant AllValid(all[..i]) && after == Folded(rows, Accepted(all[..i]))
    {
      var row := RowOf(c, b.start.value, b.end.value, b.results.value[i]);
      AcceptedNext(all, i);
      if row.None? {
        return false, after, known;
      }
      FoldedNext(rows, Accepted(all[..i]), row.value);
      after, known := AddRow(after, known, row.value);
    }
    assert all[..|all|] == all;
    ok := true;
  }

  /** The next bucket is folded onto the rows; an invalid one ends the page. */
  lemma PageNext(c: Capability, buckets: seq<Bucket>, i: nat, rows: seq<Row>)
    requires i < |buckets| && AllValid(PageRows(c, buckets[..i]))
    ensures
      var before, now := Folded(rows, Accepted(PageRows(c, buckets[..i]))), Accepted(BucketRows(c, buckets[i]));
      && Folded(rows, Accepted(PageRows(c, buckets[..i + 1]))) == Folded(before, now)
      && (if AllValid(BucketRows(c, buckets[i])) then AllValid(PageRows(c, buckets[..i + 1]))
          else !AllValid(PageRows(c, buckets)) && Accepted(PageRows(c, buckets)) == Accepted(PageRows(c, buckets[..i + 1])))
  {
    var earlier, now := PageRows(c, buckets[..i]), BucketRows(c, buckets[i]);
    assert buckets[..i + 1][..i] == buckets[..i];
    assert PageRows(c, buckets[..i + 1]) == earlier + now;
    AcceptedConcat(earlier, now);
    FoldedSplits(rows, Accepted(earlier), Accepted(now));
    if !AllValid(now) {
      StopsThere(c, buckets, i + 1);
    }
  }

  /** A page is folded onto the rows of the pages before it. */
  method ParsePage(c: Capability, p: Page, rows: seq<Row>) returns (ok: bool, after: seq<Row>)
    requires UniqueKeys(rows)
    ensures UniqueKeys(after)
    ensures ok <==> ValidPage(c, p)
    ensures after == Folded(rows, PageAccepted(c, p))
  {
    after := rows;
    if p.data.None? || p.hasMore.None? {
      return false, after;
    }
    ok, after := ParseBuckets(c, p.data.value, rows);
  }

  method ParseBuckets(c: Capability, buckets: seq<Bucket>, rows: seq<Row>) returns (ok: bool, after: seq<Row>)
    requires UniqueKeys(rows)
    ensures UniqueKeys(after)
    ensures ok <==> AllValid(PageRows(c, buckets))
    ensures after == Folded(rows, Accepted(PageRows(c, buckets)))
  {
    after := rows;
    var known := BuildIndex(rows);
    for i := 0 to |buckets|
      invariant UniqueKeys(after) && IsIndex(known, after)
      invariant AllValid(PageRows(c, buckets[..i])) && after == Folded(rows, Accepted(PageRows(c, buckets[..i])))
    {
      PageNext(c, buckets, i, rows);
      ok, after, known := ParseBucket(c, buckets[i], after, known);
      if !ok {
        return false, after;
      }
    }
    assert buckets[..|buckets|] == buckets;
    ok := true;
  }

  /** Nothing after an invalid bucket is accepted. */
  lemma {:induction false} StopsThere(c: Capability, buckets: seq<Bucket>, i: nat)
    requires i <= |buckets| && !AllValid(PageRows(c, buckets[..i]))
    ensures Accepted(PageRows(c, buckets)) == Accepted(PageRows(c, buckets[..i])) && !AllValid(PageRows(c, buckets))
    decreases |buckets|
  {
    if i < |buckets| {
      var init := buckets[..|buckets| - 1];
      assert init[..i] == buckets[..i];
      StopsThere(c, init, i);
      AcceptedConcat(PageRows(c, init), BucketRows(c, buckets[|buckets| - 1]));
    } else {
      assert buckets[..i] == buckets;
    }
  }

  // ---------- Pages, order and totals ----------

  /** However results are split into pages, the rows are those of one page. */
  lemma {:induction false} FoldedSplits(rows: seq<Row>, a: seq<Row>, b: seq<Row>)
    ensures Folded(Folded(rows, a), b) == Folded(rows, a + b)
  {
    if b == [] {
      assert a + b == a;
    } else {
      assert (a + b)[..|a + b| - 1] == a + b[..|b| - 1];
      FoldedSplits(rows, a, b[..|b| - 1]);
    }
  }

  function TallyAt(rows: seq<Row>, text: RowText): Tally {
    var i := Position(rows, text);
    if i < |rows| then rows[i].tally else ZERO
  }

  function SumFor(rows: seq<Row>, text: RowText): Tally {
    if rows == [] then ZERO
    else
      var earlier, last := SumFor(rows[..|rows| - 1], text), rows[|rows| - 1];
      if TextOf(last.key) == text then Plus(earlier, last.tally) else earlier
  }

  lemma AddedTally(rows: seq<Row>, row: Row, text: RowText)
    requires UniqueKeys(rows)
    ensures TallyAt(Added(rows, row), text) == if text == TextOf(row.key) then Plus(TallyAt(rows, text), row.tally) else TallyAt(rows, text)
  {
    hide TextOf;
    PositionAfter(rows, row, text);
  }

  /** Texts stay unique, and the row of a text holds the sum of its results. */
  lemma {:induction false} FoldedConserves(rows: seq<Row>, more: seq<Row>, text: RowText)
    requires UniqueKeys(rows)
    ensures UniqueKeys(Folded(rows, more))
    ensures TallyAt(Folded(rows, more), text) == Plus(TallyAt(rows, text), SumFor(more, text))
    ensures Position(Folded(rows, more), text) < |Folded(rows, more)| <==>
              Position(rows, text) < |rows| || Position(more, text) < |more|
  {
    hide TallyAt, UniqueKeys;
    if more != [] {
      var init, last := more[..|more| - 1], more[|more| - 1];
      FoldedConserves(rows, init, text);
      AddedTally(Folded(rows, init), last, text);
      PositionAfter(Folded(rows, init), last, text);
    }
  }

  lemma {:induction false} SumForConcat(a: seq<Row>, b: seq<Row>, text: RowText)
    ensures SumFor(a + b, text) == Plus(SumFor(a, text), SumFor(b, text))
  {
    if b == [] {
      assert a + b == a;
    } else {
      assert (a + b)[..|a + b| - 1] == a + b[..|b| - 1];
      SumForConcat(a, b[..|b| - 1], text);
    }
  }

  lemma SumForNext(s: seq<Row>, row: Row, text: RowText)
    ensures SumFor(s + [row], text) == if TextOf(row.key) == text then Plus(SumFor(s, text), row.tally) else SumFor(s, text)
  {
    assert (s + [row])[..|s|] == s;
  }

  lemma TakeLast(before: seq<Row>, row: Row, after: seq<Row>, text: RowText)
    ensures SumFor(before + [row] + after, text) == SumFor(before + after + [row], text)
  {
    SumForConcat(before, after, text);
    SumForConcat(before + [row], after, text);
    SumForNext(before, row, text);
    SumForNext(before + after, row, text);
  }

  lemma RemoveOne(b: seq<Row>, i: nat)
    requires i < |b|
    ensures multiset(b[..i] + b[i + 1..]) == multiset(b) - multiset{b[i]}
    ensures b == b[..i] + [b[i]] + b[i + 1..]
  {
    assert b == b[..i] + [b[i]] + b[i + 1..];
    assert multiset(b) == multiset(b[..i] + [b[i]] + b[i + 1..]);
  }

  /** The sums of results do not depend on their order. */
  lemma {:induction false} SumForPermuted(a: seq<Row>, b: seq<Row>, text: RowText)
    requires multiset(a) == multiset(b)
    ensures SumFor(a, text) == SumFor(b, text)
    decreases |a|
  {
    assert |a| == |multiset(a)| == |multiset(b)| == |b|;
    if a != [] {
      var init, last := a[..|a| - 1], a[|a| - 1];
      assert a == init + [last];
      assert last in multiset(a) && last in b;
      var i :| 0 <= i < |b| && b[i] == last;
      RemoveOne(b, i);
      var rest := b[..i] + b[i + 1..];
      assert multiset(init) == multiset(a) - multiset{last};
      SumForPermuted(init, rest, text);
      TakeLast(b[..i], last, b[i + 1..], text);
      SumForNext(init, last, text);
      SumForNext(rest, last, text);
    }
  }

  lemma FoldedFromNothing(a: seq<Row>, text: RowText)
    ensures UniqueKeys(Folded([], a)) && TallyAt(Folded([], a), text) == SumFor(a, text)
  {
    FoldedConserves([], a, text);
    assert TallyAt([], text) == ZERO;
  }

  /** Two deliveries of the same results, in any order and any pages, agree on every text. */
  lemma RowsIgnoreOrder(a: seq<Row>, b: seq<Row>, text: RowText)
    requires multiset(a) == multiset(b)
    ensures TallyAt(Folded([], a), text) == TallyAt(Folded([], b), text)
  {
    FoldedFromNothing(a, text);
    FoldedFromNothing(b, text);
    SumForPermuted(a, b, text);
  }
}
