/** The daily baseline of a budget: the median over its complete UTC days, and how many of the
    days between the first and the last one are covered. */
module DailyBaseline {
  import opened Options
  import opened BillingCycle
  import Calendar
  import opened Observations

  function DayInterval(d: int): Interval {
    Interval(d * Calendar.DAY_MS, d * Calendar.DAY_MS + Calendar.DAY_MS)
  }

  predicate IsCompleteDay(o: Observation, todayStart: Time) {
    o.start % Calendar.DAY_MS == 0 && o.end == o.start + Calendar.DAY_MS && o.end <= todayStart
  }

  predicate AllCounted(m: ByInterval) {
    KeyedByInterval(m) && forall k :: k in m ==> m[k].valueMinor.Some? && m[k].valueMinor.value >= 0
  }

  function DayKeys(m: ByInterval, todayStart: Time): set<int> {
    set k | k in m && IsCompleteDay(m[k], todayStart) :: k.start / Calendar.DAY_MS
  }

  lemma DayKeysAreIntervals(m: ByInterval, todayStart: Time)
    requires KeyedByInterval(m)
    ensures forall d :: d in DayKeys(m, todayStart) <==> DayInterval(d) in m && DayInterval(d).end <= todayStart
  {
    forall d
      ensures d in DayKeys(m, todayStart) <==> DayInterval(d) in m && DayInterval(d).end <= todayStart
    {
      if d in DayKeys(m, todayStart) {
        var k :| k in m && IsCompleteDay(m[k], todayStart) && k.start / Calendar.DAY_MS == d;
        assert k == DayInterval(d);
      }
      if DayInterval(d) in m && DayInterval(d).end <= todayStart {
        assert IsCompleteDay(m[DayInterval(d)], todayStart);
        assert DayInterval(d).start / Calendar.DAY_MS == d;
      }
    }
  }

  /** The value of every complete day. */
  function Days(m: ByInterval, todayStart: Time): map<int, int>
    requires AllCounted(m)
  {
    DayKeysAreIntervals(m, todayStart);
    map d | d in DayKeys(m, todayStart) :: m[DayInterval(d)].valueMinor.value
  }

  ghost predicate IsBaseline(days: map<int, int>, part: ByInterval, todayStart: Time) {
    forall d :: IsBaselineDay(days, part, todayStart, d)
  }

  ghost predicate IsBaselineDay(days: map<int, int>, part: ByInterval, todayStart: Time, d: int) {
    var k := DayInterval(d);
    && (d in days <==> k in part && k.end <= todayStart)
    && (d in days ==> part[k].valueMinor == Some(days[d]))
  }

  lemma BaselineGrows(days: map<int, int>, part: ByInterval, todayStart: Time, o: Observation, after: map<int, int>, grown: ByInterval)
    requires IsBaseline(days, part, todayStart) && o.valueMinor.Some? && IntervalOf(o) !in part
    requires after == if IsCompleteDay(o, todayStart) then days[o.start / Calendar.DAY_MS := o.valueMinor.value] else days
    requires grown == part[IntervalOf(o) := o]
    ensures IsBaseline(after, grown, todayStart)
  {
    forall d
      ensures IsBaselineDay(after, grown, todayStart, d)
    {
      assert IsBaselineDay(days, part, todayStart, d);
      SameDay(o, todayStart, d);
    }
  }

  /** An observation of a whole day is a complete day when that day is over. */
  lemma SameDay(o: Observation, todayStart: Time, d: int)
    ensures DayInterval(d) == IntervalOf(o) && o.end <= todayStart <==> IsCompleteDay(o, todayStart) && o.start / Calendar.DAY_MS == d
  {}

  lemma BaselineIsDays(days: map<int, int>, m: ByInterval, todayStart: Time)
    requires AllCounted(m) && IsBaseline(days, m, todayStart)
    ensures days == Days(m, todayStart)
  {
    DayKeysAreIntervals(m, todayStart);
    forall d
      ensures d in days <==> d in Days(m, todayStart)
      ensures d in days ==> days[d] == Days(m, todayStart)[d]
    {
      assert IsBaselineDay(days, m, todayStart, d);
    }
  }

  method CollectDays(list: seq<Observation>, todayStart: Time, ghost m: ByInterval) returns (days: map<int, int>)
    requires Lists(list, m) && AllCounted(m)
    ensures days == Days(m, todayStart)
  {
    days := map[];
    for i := 0 to |list|
      invariant IsBaseline(days, PartOf(list[..i]), todayStart)
    {
      var o := list[i];
      ListPrefix(list, i, m);
      ghost var before := days;
      if IsCompleteDay(o, todayStart) {
        days := days[o.start / Calendar.DAY_MS := o.valueMinor.value];
      }
      BaselineGrows(before, PartOf(list[..i]), todayStart, o, days, PartOf(list[..i + 1]));
    }
    assert list[..|list|] == list;
    WholeList(list, m);
    BaselineIsDays(days, m, todayStart);
  }

  // ---------- Days in order ----------

  lemma AnyElement<T>(s: set<T>) returns (x: T)
    requires s != {}
    ensures x in s
  {
    x :| x in s;
  }

  lemma {:induction false} LeastExists(s: set<int>)
    requires s != {}
    ensures exists d :: IsLeast(d, s)
    decreases |s|
  {
    var k := AnyElement(s);
    var rest := s - {k};
    if rest == {} {
      assert s == {k};
      assert IsLeast(k, s);
    } else {
      LeastExists(rest);
      var d :| IsLeast(d, rest);
      var best := if k < d then k else d;
      forall e | e in s
        ensures best <= e
      {
        assert e == k || e in rest;
      }
      assert IsLeast(best, s);
    }
  }

  lemma {:induction false} GreatestExists(s: set<int>)
    requires s != {}
    ensures exists d :: IsGreatest(d, s)
    decreases |s|
  {
    var k := AnyElement(s);
    var rest := s - {k};
    if rest == {} {
      assert s == {k};
      assert IsGreatest(k, s);
    } else {
      GreatestExists(rest);
      var d :| IsGreatest(d, rest);
      var best := if k > d then k else d;
      forall e | e in s
        ensures best >= e
      {
        assert e == k || e in rest;
      }
      assert IsGreatest(best, s);
    }
  }

  ghost predicate IsLeast(d: int, s: set<int>) {
    d in s && forall e :: e in s ==> d <= e
  }

  ghost predicate IsGreatest(d: int, s: set<int>) {
    d in s && forall e :: e in s ==> e <= d
  }

  ghost function FirstKey(days: map<int, int>): (d: int)
    requires days != map[]
    ensures IsLeast(d, days.Keys)
  {
    LeastExists(days.Keys);
    var d :| IsLeast(d, days.Keys);
    d
  }

  ghost function LastKey(days: map<int, int>): (d: int)
    requires days != map[]
    ensures IsGreatest(d, days.Keys)
  {
    GreatestExists(days.Keys);
    var d :| IsGreatest(d, days.Keys);
    d
  }

  /** The values in the order of their days. */
  ghost function InOrder(days: map<int, int>): seq<int>
    decreases |days|
  {
    if days == map[] then [] else [days[FirstKey(days)]] + InOrder(days - {FirstKey(days)})
  }

  method FindFirst(days: map<int, int>) returns (first: int)
    requires days != map[]
    ensures first == FirstKey(days)
  {
    var left := days.Keys;
    ghost var any := AnyElement(left);
    first :| first in left;
    while left != {}
      invariant left <= days.Keys && first in days
      invariant forall e :: e in days && e !in left ==> first <= e
      decreases |left|
    {
      any := AnyElement(left);
      var d :| d in left;
      left := left - {d};
      if d < first {
        first := d;
      }
    }
  }

  lemma {:induction false} InOrderSpan(days: map<int, int>, last: int)
    requires days != map[] && IsGreatest(last, days.Keys)
    ensures |InOrder(days)| == |days| <= last - FirstKey(days) + 1
    decreases |days|
  {
    var first := FirstKey(days);
    var rest := days - {first};
    assert |rest| == |days| - 1;
    if rest == map[] {
      assert InOrder(rest) == [];
    } else {
      var e := AnyElement(rest.Keys);
      assert e in days.Keys;
      assert last in rest;
      InOrderSpan(rest, last);
    }
  }

  /** First day, last day and values of the days, as an ordered map lists them. */
  method ListDays(days: map<int, int>) returns (first: int, last: int, values: seq<int>)
    requires days != map[]
    ensures first == FirstKey(days) && last == LastKey(days) && values == InOrder(days)
  {
    first := FindFirst(days);
    last := first;
    values := [];
    var left := days;
    while left != map[]
      invariant left.Keys <= days.Keys && forall k :: k in left ==> left[k] == days[k]
      invariant values + InOrder(left) == InOrder(days)
      invariant last in days
      invariant forall e :: e in days && e !in left ==> e <= last
      invariant forall e :: e in left ==> last <= e
      decreases |left|
    {
      last := FindFirst(left);
      assert |left - {last}| == |left| - 1;
      values := values + [left[last]];
      left := left - {last};
    }
    assert IsGreatest(last, days.Keys);
  }

  predicate Rising(list: seq<int>) {
    forall i, j :: 0 <= i < j < |list| ==> list[i] < list[j]
  }

  ghost predicate ValuesAre(list: seq<int>, values: seq<int>, days: map<int, int>) {
    |list| == |values| && forall i :: 0 <= i < |list| ==> list[i] in days && values[i] == days[list[i]]
  }

  /** Days in increasing order, and the value of each. */
  ghost predicate ListsDays(list: seq<int>, values: seq<int>, days: map<int, int>) {
    |list| == |days| && Rising(list) && ValuesAre(list, values, days) && forall d :: d in list <==> d in days
  }

  lemma RisingFrom(first: int, list: seq<int>)
    requires Rising(list) && forall d :: d in list ==> first < d
    ensures Rising([first] + list)
  {
    var all := [first] + list;
    assert forall j :: 0 < j < |all| ==> all[j] == list[j - 1] && all[j] in list;
  }

  lemma ValuesFrom(days: map<int, int>, first: int, list: seq<int>, values: seq<int>)
    requires first in days && ValuesAre(list, values, days - {first})
    ensures ValuesAre([first] + list, [days[first]] + values, days)
  {}

  lemma ListsDaysFrom(days: map<int, int>, first: int, list: seq<int>, values: seq<int>)
    requires IsLeast(first, days.Keys) && ListsDays(list, values, days - {first})
    ensures ListsDays([first] + list, [days[first]] + values, days)
  {
    hide Rising, ValuesAre;
    assert |days - {first}| == |days| - 1;
    assert forall d :: d in list ==> d in days.Keys && d != first;
    RisingFrom(first, list);
    ValuesFrom(days, first, list, values);
  }

  lemma {:induction false} InOrderLists(days: map<int, int>) returns (list: seq<int>)
    ensures ListsDays(list, InOrder(days), days)
    decreases |days|
  {
    list := [];
    if days != map[] {
      var first := FirstKey(days);
      assert |days - {first}| == |days| - 1;
      var others := InOrderLists(days - {first});
      ListsDaysFrom(days, first, others, InOrder(days - {first}));
      list := [first] + others;
    }
  }

  // ---------- Coverage ----------

  function CoverageOf(samples: nat, expected: int): real {
    if expected > 0 then samples as real / expected as real * 100.0 else 0.0
  }

  ghost function Coverage(days: map<int, int>): real {
    if days == map[] then 0.0 else CoverageOf(|days|, LastKey(days) - FirstKey(days) + 1)
  }

  lemma RatioAtMostOne(a: real, b: real)
    requires 0.0 <= a <= b && b > 0.0
    ensures 0.0 <= a / b <= 1.0
  {}

  /** No more days are covered than there are. */
  lemma CoverageIsPercentage(days: map<int, int>)
    ensures 0.0 <= Coverage(days) <= 100.0
  {
    if days != map[] {
      InOrderSpan(days, LastKey(days));
      RatioAtMostOne(|days| as real, (LastKey(days) - FirstKey(days) + 1) as real);
    }
  }

  lemma RisingEnds(days: map<int, int>, list: seq<int>)
    requires days != map[] && Rising(list) && forall d :: d in list <==> d in days
    ensures list != [] && list[0] == FirstKey(days) && list[|list| - 1] == LastKey(days)
  {
    assert FirstKey(days) in list && LastKey(days) in list;
    assert list[0] in days.Keys && list[|list| - 1] in days.Keys;
  }

  // ---------- Median ----------

  function Inserted(sorted: seq<int>, v: int): seq<int> {
    if sorted != [] && sorted[|sorted| - 1] > v then Inserted(sorted[..|sorted| - 1], v) + [sorted[|sorted| - 1]] else sorted + [v]
  }

  function Sorted(values: seq<int>): seq<int> {
    if values == [] then [] else Inserted(Sorted(values[..|values| - 1]), values[|values| - 1])
  }

  predicate Ascending(s: seq<int>) {
    forall i, j :: 0 <= i < j < |s| ==> s[i] <= s[j]
  }

  ghost predicate AtMost(s: seq<int>, top: int) {
    forall i :: 0 <= i < |s| ==> s[i] <= top
  }

  lemma {:induction false} InsertedAtMost(sorted: seq<int>, v: int, top: int)
    requires AtMost(sorted, top) && v <= top
    ensures AtMost(Inserted(sorted, v), top)
  {
    if sorted != [] && sorted[|sorted| - 1] > v {
      InsertedAtMost(sorted[..|sorted| - 1], v, top);
    }
  }

  lemma {:induction false} InsertedKeepsElements(sorted: seq<int>, v: int)
    ensures multiset(Inserted(sorted, v)) == multiset(sorted) + multiset{v}
  {
    if sorted != [] && sorted[|sorted| - 1] > v {
      assert sorted == sorted[..|sorted| - 1] + [sorted[|sorted| - 1]];
      InsertedKeepsElements(sorted[..|sorted| - 1], v);
    }
  }

  lemma AscendingNext(s: seq<int>, top: int)
    requires Ascending(s) && AtMost(s, top)
    ensures Ascending(s + [top])
  {}

  lemma {:induction false} InsertedKeepsOrder(sorted: seq<int>, v: int)
    requires Ascending(sorted)
    ensures Ascending(Inserted(sorted, v))
  {
    if sorted != [] && sorted[|sorted| - 1] > v {
      var init, last := sorted[..|sorted| - 1], sorted[|sorted| - 1];
      InsertedKeepsOrder(init, v);
      InsertedAtMost(init, v, last);
      AscendingNext(Inserted(init, v), last);
    } else {
      AscendingNext(sorted, v);
    }
  }

  lemma {:induction false} SortedIsSorted(values: seq<int>)
    ensures Ascending(Sorted(values)) && multiset(Sorted(values)) == multiset(values)
    ensures |Sorted(values)| == |values|
  {
    if values != [] {
      var init := values[..|values| - 1];
      assert values == init + [values[|values| - 1]];
      SortedIsSorted(init);
      InsertedKeepsOrder(Sorted(init), values[|values| - 1]);
      InsertedKeepsElements(Sorted(init), values[|values| - 1]);
    }
    assert |multiset(Sorted(values))| == |Sorted(values)|;
  }

  /** Twice the middle of a sorted list, which may be a half. */
  function DoubledMiddle(s: seq<int>): int {
    var middle := |s| / 2;
    if s == [] then 0 else if |s| % 2 == 0 then s[middle - 1] + s[middle] else 2 * s[middle]
  }

  function DoubledMedian(values: seq<int>): int {
    DoubledMiddle(Sorted(values))
  }

  lemma MiddleSplits(s: seq<int>, i: nat)
    requires Ascending(s) && i < |s|
    ensures i < (|s| + 1) / 2 ==> 2 * s[i] <= DoubledMiddle(s)
    ensures i >= |s| / 2 ==> 2 * s[i] >= DoubledMiddle(s)
  {
    var middle := |s| / 2;
    assert i < middle ==> s[i] <= s[middle];
    assert i > middle ==> s[middle] <= s[i];
    if |s| % 2 == 0 {
      assert s[middle - 1] <= s[middle];
      assert i < middle - 1 ==> s[i] <= s[middle - 1];
    }
  }

  lemma MiddleIsTwo(s: seq<int>)
    requires s != []
    ensures DoubledMiddle(s) == s[(|s| - 1) / 2] + s[|s| / 2]
  {
    assert (|s| - 1) / 2 == if |s| % 2 == 0 then |s| / 2 - 1 else |s| / 2;
  }

  /** Half of the values are at most the median, and half at least; it lies midway between the
      two in the middle, which are one if their number is odd. */
  lemma MedianIsMiddle(values: seq<int>, i: nat)
    requires i < |values|
    ensures |Sorted(values)| == |values| && multiset(Sorted(values)) == multiset(values) && Ascending(Sorted(values))
    ensures DoubledMedian(values) == Sorted(values)[(|values| - 1) / 2] + Sorted(values)[|values| / 2]
    ensures i < (|values| + 1) / 2 ==> 2 * Sorted(values)[i] <= DoubledMedian(values)
    ensures i >= |values| / 2 ==> 2 * Sorted(values)[i] >= DoubledMedian(values)
  {
    hide Sorted, Ascending, DoubledMiddle;
    SortedIsSorted(values);
    MiddleSplits(Sorted(values), i);
    MiddleIsTwo(Sorted(values));
  }

  lemma MedianNotNegative(values: seq<int>)
    requires forall v :: v in values ==> v >= 0
    ensures DoubledMedian(values) >= 0
  {
    SortedIsSorted(values);
    if values != [] {
      var s := Sorted(values);
      assert s[0] in multiset(s);
      assert s[0] in multiset(values);
      assert s[0] in values;
      MiddleSplits(s, 0);
    }
  }

  lemma {:induction false} InOrderValues(days: map<int, int>, v: int)
    requires v in InOrder(days)
    ensures exists d :: d in days && days[d] == v
    decreases |days|
  {
    var first := FirstKey(days);
    if v != days[first] {
      InOrderValues(days - {first}, v);
    }
  }
}
