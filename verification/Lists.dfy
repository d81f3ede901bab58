/** Fronts and remainders of lists, whatever their length, and lists without repetitions. */
module Lists {
  function Take<T>(s: seq<T>, n: nat): seq<T> {
    if n <= |s| then s[..n] else s
  }

  function Drop<T>(s: seq<T>, n: nat): seq<T> {
    if n <= |s| then s[n..] else []
  }

  lemma TakeThenDrop<T>(s: seq<T>, n: nat)
    ensures Take(s, n) + Drop(s, n) == s
  {}

  /** `seen`, then the items not yet listed, each where it first occurs. */
  function Join<T(==,!new)>(seen: seq<T>, items: seq<T>): (joined: seq<T>)
    ensures seen <= joined
    ensures forall x :: x in joined <==> x in seen || x in items
  {
    if items == [] then seen
    else
      var before, last := Join(seen, items[..|items| - 1]), items[|items| - 1];
      assert items == items[..|items| - 1] + [last];
      if last in before then before else before + [last]
  }

  lemma {:induction false} JoinSplit<T(!new)>(seen: seq<T>, a: seq<T>, b: seq<T>)
    ensures Join(seen, a + b) == Join(Join(seen, a), b)
  {
    if b == [] {
      assert a + b == a;
    } else {
      assert (a + b)[..|a + b| - 1] == a + b[..|b| - 1];
      JoinSplit(seen, a, b[..|b| - 1]);
    }
  }

  lemma {:induction false} JoinKnown<T(!new)>(seen: seq<T>, items: seq<T>)
    requires forall x :: x in items ==> x in seen
    ensures Join(seen, items) == seen
  {
    if items != [] {
      assert items[|items| - 1] in items;
      JoinKnown(seen, items[..|items| - 1]);
    }
  }

  /** Items that are known or equal to the first of the following ones come out with them. */
  lemma JoinAhead<T(!new)>(seen: seq<T>, ahead: seq<T>, items: seq<T>)
    requires forall x :: x in ahead ==> x in seen || (items != [] && x == items[0])
    ensures Join(Join(seen, ahead), items) == Join(seen, items)
  {
    if forall x :: x in ahead ==> x in seen {
      JoinKnown(seen, ahead);
    } else {
      var first := [items[0]];
      assert items == first + items[1..];
      JoinsToFirst(seen, ahead, items[0]);
      JoinSplit(seen, first, items[1..]);
      JoinSplit(Join(seen, ahead), first, items[1..]);
      JoinKnown(Join(seen, ahead), first);
    }
  }

  lemma {:induction false} JoinsToFirst<T(!new)>(seen: seq<T>, ahead: seq<T>, x: T)
    requires forall y :: y in ahead ==> y in seen || y == x
    ensures Join(seen, ahead) == if x in ahead then Join(seen, [x]) else seen
  {
    if ahead != [] {
      var init, last := ahead[..|ahead| - 1], ahead[|ahead| - 1];
      assert ahead == init + [last];
      JoinsToFirst(seen, init, x);
      assert [x][..0] == [] && Join(seen, []) == seen;
    }
  }

  /** The list without repetitions. */
  function Distinct<T(==,!new)>(items: seq<T>): seq<T> {
    Join([], items)
  }
}
