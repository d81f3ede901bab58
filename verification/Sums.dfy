/** Sums over lists and over the values of finite maps. */
module Sums {
  ghost function SumOver<T>(list: seq<T>, f: T -> int): int {
    if list == [] then 0 else SumOver(list[..|list| - 1], f) + f(list[|list| - 1])
  }

  lemma {:induction false} SumOverConcat<T>(a: seq<T>, b: seq<T>, f: T -> int)
    ensures SumOver(a + b, f) == SumOver(a, f) + SumOver(b, f)
  {
    if b == [] {
      assert a + b == a;
    } else {
      assert (a + b)[..|a + b| - 1] == a + b[..|b| - 1];
      SumOverConcat(a, b[..|b| - 1], f);
    }
  }

  lemma {:induction false} SumOverUpdate<T>(list: seq<T>, i: nat, x: T, f: T -> int)
    requires i < |list|
    ensures SumOver(list[i := x], f) == SumOver(list, f) - f(list[i]) + f(x)
  {
    var init, after := list[..|list| - 1], list[i := x];
    if i < |init| {
      assert after[..|list| - 1] == init[i := x];
      SumOverUpdate(init, i, x, f);
    } else {
      assert after[..|list| - 1] == init;
    }
  }

  ghost function Total<K>(m: map<K, int>): int {
    if m == map[] then 0
    else
      var k :| k in m;
      m[k] + Total(m - {k})
  }

  /** Any key may be taken out first. */
  lemma {:induction false} TotalRemove<K>(m: map<K, int>, k: K)
    requires k in m
    ensures Total(m) == m[k] + Total(m - {k})
    decreases |m|
  {
    var first :| first in m && Total(m) == m[first] + Total(m - {first});
    if first != k {
      TotalRemove(m - {first}, k);
      TotalRemove(m - {k}, first);
      assert m - {first} - {k} == m - {k} - {first};
    }
  }

  lemma TotalUpdate<K>(m: map<K, int>, k: K, v: int)
    ensures Total(m[k := v]) == Total(m) - (if k in m then m[k] else 0) + v
  {
    TotalRemove(m[k := v], k);
    assert m[k := v] - {k} == m - {k};
    if k in m {
      TotalRemove(m, k);
    } else {
      assert m - {k} == m;
    }
  }

  ghost function RealTotal<K>(m: map<K, real>): real {
    if m == map[] then 0.0
    else
      var k :| k in m;
      m[k] + RealTotal(m - {k})
  }

  lemma {:induction false} RealTotalRemove<K>(m: map<K, real>, k: K)
    requires k in m
    ensures RealTotal(m) == m[k] + RealTotal(m - {k})
    decreases |m|
  {
    var first :| first in m && RealTotal(m) == m[first] + RealTotal(m - {first});
    if first != k {
      RealTotalRemove(m - {first}, k);
      RealTotalRemove(m - {k}, first);
      assert m - {first} - {k} == m - {k} - {first};
    }
  }

  lemma RealTotalUpdate<K>(m: map<K, real>, k: K, v: real)
    ensures RealTotal(m[k := v]) == RealTotal(m) - (if k in m then m[k] else 0.0) + v
  {
    RealTotalRemove(m[k := v], k);
    assert m[k := v] - {k} == m - {k};
    if k in m {
      RealTotalRemove(m, k);
    } else {
      assert m - {k} == m;
    }
  }
}
