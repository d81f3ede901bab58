/** Which observations a budget is paced on: of each interval, the one observed last. */
module Observations {
  import opened Options
  import opened BillingCycle
  import opened Sums

  /** Amounts in minor units, currency codes normalised. */
  datatype Observation = Observation(observedAt: Time, start: Time, end: Time, valueMinor: Option<int>, currency: string,
                                     actual: bool, scopeKind: string, scopeIdentity: string)

  datatype Interval = Interval(start: Time, end: Time)

  datatype Scope = Scope(mode: string, kind: string, identity: string)

  function IntervalOf(o: Observation): Interval {
    Interval(o.start, o.end)
  }

  predicate MatchesScope(s: Scope, o: Observation) {
    if s.mode == "aggregate" then o.scopeKind == "" && o.scopeIdentity == ""
    else o.scopeKind == s.kind && o.scopeIdentity == s.identity
  }

  type ByInterval = map<Interval, Observation>

  function Improved(latest: ByInterval, s: Scope, o: Observation): ByInterval {
    if !MatchesScope(s, o) then latest
    else if IntervalOf(o) in latest && latest[IntervalOf(o)].observedAt >= o.observedAt then latest
    else latest[IntervalOf(o) := o]
  }

  function Latest(s: Scope, observations: seq<Observation>): ByInterval {
    if observations == [] then map[]
    else Improved(Latest(s, observations[..|observations| - 1]), s, observations[|observations| - 1])
  }

  method CollectLatest(s: Scope, observations: seq<Observation>) returns (latest: ByInterval, sawOtherScope: bool)
    ensures latest == Latest(s, observations)
    ensures sawOtherScope <==> exists o :: o in observations && !MatchesScope(s, o)
  {
    latest, sawOtherScope := map[], false;
    for i := 0 to |observations|
      invariant latest == Latest(s, observations[..i])
      invariant sawOtherScope <==> exists o :: o in observations[..i] && !MatchesScope(s, o)
    {
      var o := observations[i];
      assert observations[..i + 1] == observations[..i] + [o] && observations[..i + 1][..i] == observations[..i];
      if !MatchesScope(s, o) {
        sawOtherScope := true;
        continue;
      }
      var key := IntervalOf(o);
      if key !in latest || latest[key].observedAt < o.observedAt {
        latest := latest[key := o];
      }
    }
    assert observations[..|observations|] == observations;
  }

  // ---------- Independence of order ----------

  ghost predicate Competes(s: Scope, observations: seq<Observation>, o: Observation, k: Interval) {
    o in observations && MatchesScope(s, o) && IntervalOf(o) == k
  }

  /** Of each interval with matching observations, one that no other was observed after. */
  lemma {:induction false} LatestIsLatest(s: Scope, observations: seq<Observation>, k: Interval)
    ensures k in Latest(s, observations) <==> exists o :: Competes(s, observations, o, k)
    ensures k in Latest(s, observations) ==>
              && Competes(s, observations, Latest(s, observations)[k], k)
              && forall o :: Competes(s, observations, o, k) ==> o.observedAt <= Latest(s, observations)[k].observedAt
  {
    if observations != [] {
      var init, last := observations[..|observations| - 1], observations[|observations| - 1];
      assert observations == init + [last];
      LatestIsLatest(s, init, k);
      assert forall o :: Competes(s, observations, o, k) <==>
        Competes(s, init, o, k) || (o == last && MatchesScope(s, last) && IntervalOf(last) == k);
    }
  }

  ghost predicate IsFirstAt(s: Scope, observations: seq<Observation>, k: Interval, i: int) {
    && 0 <= i < |observations| && Competes(s, observations, observations[i], k)
    && forall j :: 0 <= j < i && Competes(s, observations, observations[j], k) ==>
         observations[j].observedAt < observations[i].observedAt
  }

  /** Of several observations at the latest time the first in the list is kept. */
  lemma {:induction false} EarliestIsKept(s: Scope, observations: seq<Observation>, k: Interval)
    requires k in Latest(s, observations)
    ensures exists i :: IsFirstAt(s, observations, k, i) && observations[i] == Latest(s, observations)[k]
  {
    var init, last := observations[..|observations| - 1], observations[|observations| - 1];
    assert observations == init + [last];
    if k in Latest(s, init) && Latest(s, observations)[k] == Latest(s, init)[k] {
      EarliestIsKept(s, init, k);
      var i :| IsFirstAt(s, init, k, i) && init[i] == Latest(s, init)[k];
      assert observations[i] == init[i] && forall j :: 0 <= j < i ==> observations[j] == init[j];
      assert IsFirstAt(s, observations, k, i);
    } else {
      LatestIsLatest(s, init, k);
      assert Latest(s, observations)[k] == last;
      forall j | 0 <= j < |init| && Competes(s, observations, observations[j], k)
        ensures observations[j].observedAt < last.observedAt
      {
        assert Competes(s, init, init[j], k);
      }
      assert IsFirstAt(s, observations, k, |observations| - 1);
    }
  }

  /** No interval was observed twice at its latest time with different outcomes. */
  ghost predicate LatestTimesUnique(s: Scope, observations: seq<Observation>) {
    forall k, o :: k in Latest(s, observations) && Competes(s, observations, o, k) ==>
      o.observedAt < Latest(s, observations)[k].observedAt || o == Latest(s, observations)[k]
  }

  /** Neither order nor repetition matters when latest times are unique. */
  lemma LatestIgnoresOrder(s: Scope, a: seq<Observation>, b: seq<Observation>)
    requires LatestTimesUnique(s, a)
    requires forall o :: o in a <==> o in b
    ensures Latest(s, a) == Latest(s, b)
  {
    forall k
      ensures k in Latest(s, a) <==> k in Latest(s, b)
      ensures k in Latest(s, a) ==> Latest(s, a)[k] == Latest(s, b)[k]
    {
      LatestIsLatest(s, a, k);
      LatestIsLatest(s, b, k);
      assert forall o :: Competes(s, a, o, k) <==> Competes(s, b, o, k);
    }
  }

  /** Nothing but the latest observation of each interval matters. */
  lemma OnlyLatestMatter(s: Scope, a: seq<Observation>, kept: seq<Observation>)
    requires forall o :: o in kept <==> exists k :: k in Latest(s, a) && Latest(s, a)[k] == o
    ensures Latest(s, kept) == Latest(s, a)
  {
    forall k
      ensures k in Latest(s, a) <==> k in Latest(s, kept)
      ensures k in Latest(s, a) ==> Latest(s, kept)[k] == Latest(s, a)[k]
    {
      LatestIsLatest(s, a, k);
      LatestIsLatest(s, kept, k);
      forall o | Competes(s, kept, o, k)
        ensures k in Latest(s, a) && o == Latest(s, a)[k]
      {
        var other :| other in Latest(s, a) && Latest(s, a)[other] == o;
        LatestIsLatest(s, a, other);
      }
      if k in Latest(s, a) {
        assert Competes(s, kept, Latest(s, a)[k], k);
      }
    }
  }

  // ---------- Lists of a map's observations ----------

  /** The order of a hash is not known: any list of the map's observations will do. */
  ghost predicate Lists(list: seq<Observation>, m: ByInterval) {
    && |list| == |m|
    && (forall k :: k in m ==> IntervalOf(m[k]) == k && m[k] in list)
    && (forall i :: 0 <= i < |list| ==> IntervalOf(list[i]) in m && m[IntervalOf(list[i])] == list[i])
    && (forall i, j :: 0 <= i < j < |list| ==> IntervalOf(list[i]) != IntervalOf(list[j]))
  }

  predicate KeyedByInterval(m: ByInterval) {
    forall k :: k in m ==> IntervalOf(m[k]) == k
  }

  lemma {:induction false} LatestIsKeyed(s: Scope, observations: seq<Observation>)
    ensures KeyedByInterval(Latest(s, observations))
  {
    if observations != [] {
      LatestIsKeyed(s, observations[..|observations| - 1]);
    }
  }

  method ListOf(m: ByInterval) returns (list: seq<Observation>)
    requires KeyedByInterval(m)
    ensures Lists(list, m)
  {
    list := [];
    var left := m;
    while left != map[]
      invariant |list| + |left| == |m|
      invariant left.Keys <= m.Keys && forall k :: k in left ==> left[k] == m[k]
      invariant forall k :: k in m && k !in left ==> m[k] in list
      invariant forall i :: 0 <= i < |list| ==>
                  IntervalOf(list[i]) in m && IntervalOf(list[i]) !in left && m[IntervalOf(list[i])] == list[i]
      invariant forall i, j :: 0 <= i < j < |list| ==> IntervalOf(list[i]) != IntervalOf(list[j])
      decreases |left|
    {
      var k :| k in left;
      assert |left - {k}| == |left| - 1;
      list := list + [left[k]];
      left := left - {k};
    }
  }

  // ---------- Sums within a cycle ----------

  predicate IsWithin(o: Observation, c: Cycle) {
    c.Cycle? && o.start >= c.start && o.end <= c.end && o.start < o.end && o.valueMinor.Some?
  }

  function Within(m: ByInterval, c: Cycle): map<Interval, int> {
    map k | k in m && IsWithin(m[k], c) :: m[k].valueMinor.value
  }

  lemma ListPrefix(list: seq<Observation>, i: nat, m: ByInterval)
    requires i < |list| && Lists(list, m)
    ensures IntervalOf(list[i]) !in PartOf(list[..i])
    ensures PartOf(list[..i + 1]) == PartOf(list[..i])[IntervalOf(list[i]) := list[i]]
  {
    assert list[..i + 1][..i] == list[..i];
    PartKeys(list[..i], IntervalOf(list[i]));
  }

  function PartOf(list: seq<Observation>): ByInterval {
    if list == [] then map[]
    else PartOf(list[..|list| - 1])[IntervalOf(list[|list| - 1]) := list[|list| - 1]]
  }

  lemma {:induction false} PartKeys(list: seq<Observation>, k: Interval)
    ensures k in PartOf(list) <==> exists i :: 0 <= i < |list| && IntervalOf(list[i]) == k
    ensures k in PartOf(list) ==> PartOf(list)[k] in list && IntervalOf(PartOf(list)[k]) == k
  {
    if list != [] {
      var init := list[..|list| - 1];
      assert list == init + [list[|list| - 1]];
      PartKeys(init, k);
    }
  }

  lemma WholeList(list: seq<Observation>, m: ByInterval)
    requires Lists(list, m)
    ensures PartOf(list) == m
  {
    forall k
      ensures k in PartOf(list) <==> k in m
      ensures k in PartOf(list) ==> PartOf(list)[k] == m[k]
    {
      PartKeys(list, k);
    }
  }

  lemma WithinGrows(part: ByInterval, o: Observation, c: Cycle)
    requires IntervalOf(o) !in part
    ensures
      var grown := Within(part[IntervalOf(o) := o], c);
      && Total(grown) == Total(Within(part, c)) + (if IsWithin(o, c) then o.valueMinor.value else 0)
      && (grown != map[] <==> Within(part, c) != map[] || IsWithin(o, c))
  {
    var k := IntervalOf(o);
    if IsWithin(o, c) {
      assert Within(part[k := o], c) == Within(part, c)[k := o.valueMinor.value];
      assert k in Within(part[k := o], c);
      TotalUpdate(Within(part, c), k, o.valueMinor.value);
    } else {
      assert Within(part[k := o], c) == Within(part, c);
    }
  }

  /** The sum does not depend on the order of the list. */
  method SumWithin(list: seq<Observation>, c: Cycle, ghost m: ByInterval) returns (total: int, hasAny: bool)
    requires Lists(list, m)
    ensures total == Total(Within(m, c))
    ensures hasAny <==> Within(m, c) != map[]
  {
    total, hasAny := 0, false;
    for i := 0 to |list|
      invariant total == Total(Within(PartOf(list[..i]), c))
      invariant hasAny <==> Within(PartOf(list[..i]), c) != map[]
    {
      ListPrefix(list, i, m);
      WithinGrows(PartOf(list[..i]), list[i], c);
      if IsWithin(list[i], c) {
        total := total + list[i].valueMinor.value;
        hasAny := true;
      }
    }
    assert list[..|list|] == list;
    WholeList(list, m);
  }

  lemma {:induction false} TotalNotNegative<K>(m: map<K, int>)
    requires forall k :: k in m ==> m[k] >= 0
    ensures Total(m) >= 0
    decreases |m|
  {
    if m != map[] {
      var k :| k in m && Total(m) == m[k] + Total(m - {k});
      TotalNotNegative(m - {k});
    }
  }
}
