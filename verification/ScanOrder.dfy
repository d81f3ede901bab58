/** The order in which an import visits files: two rotated queues, dealt four to one. */
module ScanOrder {
  import opened Lists
  import opened Options

  type File = string

  const PRIORITY_SLOTS := 4

  ghost predicate Distinct(s: seq<File>) {
    forall i, j :: 0 <= i < j < |s| ==> s[i] != s[j]
  }

  ghost predicate Disjoint(a: seq<File>, b: seq<File>) {
    forall x :: x in a ==> x !in b
  }

  /** The queue continued after its cursor; an unknown cursor leaves it alone. */
  function Rotated(queue: seq<File>, cursor: Option<File>): seq<File> {
    if cursor.Some? && cursor.value in queue then
      var i := IndexOf(queue, cursor.value);
      queue[i + 1..] + queue[..i + 1]
    else queue
  }

  function IndexOf(queue: seq<File>, f: File): (i: nat)
    requires f in queue
    ensures i < |queue| && queue[i] == f
    ensures forall j :: 0 <= j < i ==> queue[j] != f
  {
    if queue[0] == f then 0 else 1 + IndexOf(queue[1..], f)
  }

  /** Up to four new files, then one changed file, and so on until both queues are empty. */
  function Dealt(news: seq<File>, changed: seq<File>): seq<File>
    decreases |news| + |changed|
  {
    if news == [] && changed == [] then []
    else
      Take(news, PRIORITY_SLOTS) + Take(changed, 1) + Dealt(Drop(news, PRIORITY_SLOTS), Drop(changed, 1))
  }

  /** The `k`-th changed file comes right after the first `4 (k + 1)` new ones, or after all. */
  lemma {:induction false} ChangedAt(news: seq<File>, changed: seq<File>, k: nat)
    requires k < |changed|
    ensures
      var place := k + if PRIORITY_SLOTS * (k + 1) <= |news| then PRIORITY_SLOTS * (k + 1) else |news|;
      place < |Dealt(news, changed)| && Dealt(news, changed)[place] == changed[k]
    decreases k
  {
    if k > 0 {
      ChangedAt(Drop(news, PRIORITY_SLOTS), Drop(changed, 1), k - 1);
    }
  }

  /** The `i`-th new file waits for one changed file per four new ones before it, while there are any. */
  lemma {:induction false} NewAt(news: seq<File>, changed: seq<File>, i: nat)
    requires i < |news|
    ensures
      var place := i + if i / PRIORITY_SLOTS <= |changed| then i / PRIORITY_SLOTS else |changed|;
      place < |Dealt(news, changed)| && Dealt(news, changed)[place] == news[i]
  {
    if i >= PRIORITY_SLOTS {
      NewAt(Drop(news, PRIORITY_SLOTS), Drop(changed, 1), i - PRIORITY_SLOTS);
      assert i / PRIORITY_SLOTS == (i - PRIORITY_SLOTS) / PRIORITY_SLOTS + 1;
    }
  }

  /** Rotates in place after the cursor. */
  method RotateAfterCursor(queue: array<File>, cursor: Option<File>)
    modifies queue
    ensures queue[..] == Rotated(old(queue[..]), cursor)
  {
    if cursor.None? {
      return;
    }
    var i := 0;
    while i < queue.Length && queue[i] != cursor.value
      invariant 0 <= i <= queue.Length
      invariant forall j :: 0 <= j < i ==> queue[j] != cursor.value
    {
      i := i + 1;
    }
    if i == queue.Length {
      return;
    }
    assert IndexOf(queue[..], cursor.value) == i;
    var rotated := queue[i + 1..] + queue[..i + 1];
    forall j | 0 <= j < queue.Length {
      queue[j] := rotated[j];
    }
    assert queue[..] == rotated;
  }

  /** Moves up to four new files to the candidates. */
  method DealNew(candidates: seq<File>, news: seq<File>, from: nat) returns (longer: seq<File>, index: nat)
    requires from <= |news|
    ensures from <= index <= |news|
    ensures longer == candidates + Take(news[from..], PRIORITY_SLOTS)
    ensures news[index..] == Drop(news[from..], PRIORITY_SLOTS)
    ensures index == from ==> from == |news|
  {
    longer, index := candidates, from;
    var slot := 0;
    while slot < PRIORITY_SLOTS && index < |news|
      invariant index == from + slot && index <= |news| && slot <= PRIORITY_SLOTS
      invariant longer == candidates + news[from..index]
    {
      longer := longer + [news[index]];
      index, slot := index + 1, slot + 1;
    }
    assert Take(news[from..], PRIORITY_SLOTS) == news[from..index];
  }

  /** Moves at most one changed file to the candidates. */
  method DealChanged(candidates: seq<File>, changed: seq<File>, from: nat) returns (longer: seq<File>, index: nat)
    requires from <= |changed|
    ensures from <= index <= |changed|
    ensures longer == candidates + Take(changed[from..], 1)
    ensures changed[index..] == Drop(changed[from..], 1)
    ensures index == from ==> from == |changed|
  {
    longer, index := candidates, from;
    if index < |changed| {
      longer := longer + [changed[index]];
      index := index + 1;
    }
  }

  /** Deals the two queues into one list of candidates. */
  method DealCandidates(news: seq<File>, changed: seq<File>) returns (candidates: seq<File>)
    ensures candidates == Dealt(news, changed)
  {
    candidates := [];
    var newIndex, changedIndex := 0, 0;
    while newIndex < |news| || changedIndex < |changed|
      invariant newIndex <= |news| && changedIndex <= |changed|
      invariant candidates + Dealt(news[newIndex..], changed[changedIndex..]) == Dealt(news, changed)
      decreases |news| - newIndex + |changed| - changedIndex
    {
      DealtStep(candidates, news[newIndex..], changed[changedIndex..]);
      candidates, newIndex := DealNew(candidates, news, newIndex);
      candidates, changedIndex := DealChanged(candidates, changed, changedIndex);
    }
  }

  lemma DealtStep(before: seq<File>, n: seq<File>, c: seq<File>)
    requires n != [] || c != []
    ensures before + Take(n, PRIORITY_SLOTS) + Take(c, 1) + Dealt(Drop(n, PRIORITY_SLOTS), Drop(c, 1))
            == before + Dealt(n, c)
  {}

  // ---------- A permutation that keeps each queue's order ----------

  /** The members of `queue` within `s`, in the order of `s`. */
  function Among(s: seq<File>, queue: set<File>): seq<File> {
    if s == [] then []
    else (if s[0] in queue then [s[0]] else []) + Among(s[1..], queue)
  }

  lemma {:induction false} AmongConcat(a: seq<File>, b: seq<File>, queue: set<File>)
    ensures Among(a + b, queue) == Among(a, queue) + Among(b, queue)
  {
    if a == [] {
      assert a + b == b;
    } else {
      var head := if a[0] in queue then [a[0]] else [];
      assert (a + b)[0] == a[0] && (a + b)[1..] == a[1..] + b;
      AmongConcat(a[1..], b, queue);
      assert Among(a + b, queue) == head + (Among(a[1..], queue) + Among(b, queue));
    }
  }

  lemma {:induction false} AmongAllOrNone(s: seq<File>, queue: set<File>)
    ensures (forall x :: x in s ==> x in queue) ==> Among(s, queue) == s
    ensures (forall x :: x in s ==> x !in queue) ==> Among(s, queue) == []
  {
    if s != [] {
      AmongAllOrNone(s[1..], queue);
      assert s == [s[0]] + s[1..];
    }
  }

  lemma AmongRound(a: seq<File>, b: seq<File>, rest: seq<File>, queue: set<File>, first: bool)
    requires forall x :: x in a ==> (x in queue <==> first)
    requires forall x :: x in b ==> (x in queue <==> !first)
    ensures Among(a + b + rest, queue) == (if first then a else b) + Among(rest, queue)
  {
    hide Among;
    AmongConcat(a + b, rest, queue);
    AmongConcat(a, b, queue);
    AmongAllOrNone(a, queue);
    AmongAllOrNone(b, queue);
  }

  /** Each queue appears whole and in its own order. */
  lemma {:induction false} DealtKeepsOrder(news: seq<File>, changed: seq<File>, n: set<File>, c: set<File>)
    requires n !! c
    requires forall x :: x in news ==> x in n
    requires forall x :: x in changed ==> x in c
    ensures Among(Dealt(news, changed), n) == news
    ensures Among(Dealt(news, changed), c) == changed
    decreases |news| + |changed|
  {
    if news != [] || changed != [] {
      DealtKeepsOrder(Drop(news, PRIORITY_SLOTS), Drop(changed, 1), n, c);
      var rest := Dealt(Drop(news, PRIORITY_SLOTS), Drop(changed, 1));
      AmongRound(Take(news, PRIORITY_SLOTS), Take(changed, 1), rest, n, true);
      AmongRound(Take(news, PRIORITY_SLOTS), Take(changed, 1), rest, c, false);
      TakeThenDrop(news, PRIORITY_SLOTS);
      TakeThenDrop(changed, 1);
    }
  }

  lemma {:induction false} DealtIsPermutation(news: seq<File>, changed: seq<File>)
    ensures multiset(Dealt(news, changed)) == multiset(news) + multiset(changed)
    decreases |news| + |changed|
  {
    if news != [] || changed != [] {
      DealtIsPermutation(Drop(news, PRIORITY_SLOTS), Drop(changed, 1));
      TakeThenDrop(news, PRIORITY_SLOTS);
      TakeThenDrop(changed, 1);
      assert multiset(news) == multiset(Take(news, PRIORITY_SLOTS)) + multiset(Drop(news, PRIORITY_SLOTS));
      assert multiset(changed) == multiset(Take(changed, 1)) + multiset(Drop(changed, 1));
    }
  }

  // ---------- Every file gets its turn ----------

  /** The first five candidates, or all of them, include the front of each queue. */
  lemma FrontOfBoth(news: seq<File>, changed: seq<File>, m: nat)
    requires m >= PRIORITY_SLOTS + 1 || m >= |Dealt(news, changed)|
    ensures news != [] ==> |Take(Dealt(news, changed), m)| >= 1 && Dealt(news, changed)[0] == news[0]
    ensures changed != [] ==> changed[0] in Take(Dealt(news, changed), m)
  {
    if changed != [] {
      var a := Take(news, PRIORITY_SLOTS);
      var all := Dealt(news, changed);
      assert all[|a|] == changed[0];
      assert |a| <= PRIORITY_SLOTS;
      assert Take(all, m)[|a|] == changed[0];
    }
  }

  lemma {:induction false} AmongPrefix(s: seq<File>, m: nat, queue: set<File>)
    ensures Among(Take(s, m), queue) <= Among(s, queue)
  {
    assert s == Take(s, m) + Drop(s, m);
    AmongConcat(Take(s, m), Drop(s, m), queue);
  }

  lemma {:induction false} AmongHas(s: seq<File>, x: File, queue: set<File>)
    requires x in s && x in queue
    ensures x in Among(s, queue)
  {
    if s[0] != x {
      AmongHas(s[1..], x, queue);
    }
  }

  function ToSet(s: seq<File>): set<File> {
    set x | x in s
  }

  /** How many files of a queue a scan processes. */
  function Share(candidates: seq<File>, m: nat, queue: seq<File>): nat {
    |Among(Take(candidates, m), ToSet(queue))|
  }

  /** A scan of five candidates, or of all, processes a non-empty front of each queue. */
  lemma ScanServesBoth(news: seq<File>, changed: seq<File>, m: nat)
    requires Disjoint(news, changed)
    requires m >= PRIORITY_SLOTS + 1 || m >= |Dealt(news, changed)|
    ensures
      var candidates := Dealt(news, changed);
      && Share(candidates, m, news) <= |news| && Share(candidates, m, changed) <= |changed|
      && Among(Take(candidates, m), ToSet(news)) == news[..Share(candidates, m, news)]
      && Among(Take(candidates, m), ToSet(changed)) == changed[..Share(candidates, m, changed)]
      && (news != [] ==> Share(candidates, m, news) >= 1)
      && (changed != [] ==> Share(candidates, m, changed) >= 1)
  {
    hide Dealt, Among;
    var candidates := Dealt(news, changed);
    DealtKeepsOrder(news, changed, ToSet(news), ToSet(changed));
    AmongPrefix(candidates, m, ToSet(news));
    AmongPrefix(candidates, m, ToSet(changed));
    FrontOfBoth(news, changed, m);
    if news != [] {
      assert Take(candidates, m)[0] == news[0];
      AmongHas(Take(candidates, m), news[0], ToSet(news));
    }
    if changed != [] {
      AmongHas(Take(candidates, m), changed[0], ToSet(changed));
    }
  }

  /** The cursor after a scan that processed the first `share` files of the rotated queue. */
  function NextCursor(queue: seq<File>, cursor: Option<File>, share: nat): Option<File> {
    if 0 < share <= |queue| then Some(Rotated(queue, cursor)[share - 1]) else cursor
  }

  lemma RotatedKeepsFiles(queue: seq<File>, cursor: Option<File>)
    ensures |Rotated(queue, cursor)| == |queue|
    ensures forall x :: x in Rotated(queue, cursor) <==> x in queue
    ensures Distinct(queue) ==> Distinct(Rotated(queue, cursor))
  {
    if cursor.Some? && cursor.value in queue {
      var i := IndexOf(queue, cursor.value);
      assert queue == queue[..i + 1] + queue[i + 1..];
    }
  }

  lemma RotatedAt(queue: seq<File>, k: nat)
    requires Distinct(queue) && k < |queue|
    ensures Rotated(queue, Some(queue[k])) == queue[k + 1..] + queue[..k + 1]
  {
    assert IndexOf(queue, queue[k]) == k;
  }

  /** Moving the front of a rotation to the back is another rotation. */
  lemma RotationShift(queue: seq<File>, i: nat, share: nat)
    requires i < |queue| && 0 < share <= |queue|
    ensures
      var now := queue[i + 1..] + queue[..i + 1];
      var k := if i + share < |queue| then i + share else i + share - |queue|;
      now[share - 1] == queue[k] && now[share..] + now[..share] == queue[k + 1..] + queue[..k + 1]
  {}

  lemma AdvancesFrom(queue: seq<File>, i: nat, share: nat)
    requires Distinct(queue) && i < |queue| && 0 < share <= |queue|
    ensures
      var now := queue[i + 1..] + queue[..i + 1];
      Rotated(queue, Some(now[share - 1])) == now[share..] + now[..share]
  {
    hide Distinct, Rotated;
    RotationShift(queue, i, share);
    RotatedAt(queue, if i + share < |queue| then i + share else i + share - |queue|);
  }

  /** Continuing after a processed front of a rotated queue moves that front to the back. */
  lemma RotationAdvances(queue: seq<File>, cursor: Option<File>, share: nat)
    requires Distinct(queue) && 0 < share <= |queue|
    ensures
      var now := Rotated(queue, cursor);
      Rotated(queue, NextCursor(queue, cursor, share)) == now[share..] + now[..share]
  {
    hide Distinct, IndexOf;
    if cursor.Some? && cursor.value in queue {
      AdvancesFrom(queue, IndexOf(queue, cursor.value), share);
    } else {
      RotatedAt(queue, share - 1);
    }
  }

  function CursorAfter(queue: seq<File>, cursor: Option<File>, shares: seq<nat>, t: nat): Option<File>
    requires t <= |shares|
  {
    if t == 0 then cursor else NextCursor(queue, CursorAfter(queue, cursor, shares, t - 1), shares[t - 1])
  }

  /** The files of a queue that the `t`-th of a series of scans processes. */
  function Processed(queue: seq<File>, cursor: Option<File>, shares: seq<nat>, t: nat): seq<File>
    requires t < |shares|
  {
    Take(Rotated(queue, CursorAfter(queue, cursor, shares, t)), shares[t])
  }

  /** The file waits at this place of the rotated queue. */
  ghost predicate WaitsAt(queue: seq<File>, cursor: Option<File>, f: File, place: int) {
    0 <= place < |Rotated(queue, cursor)| == |queue| && Rotated(queue, cursor)[place] == f
  }

  lemma PlaceAdvances(queue: seq<File>, cursor: Option<File>, share: nat, f: File, place: nat)
    requires Distinct(queue) && WaitsAt(queue, cursor, f, place) && 0 < share <= place
    ensures WaitsAt(queue, NextCursor(queue, cursor, share), f, place - share)
  {
    RotationAdvances(queue, cursor, share);
  }

  lemma FrontIsTaken(queue: seq<File>, cursor: Option<File>, share: nat, f: File, place: nat)
    requires WaitsAt(queue, cursor, f, place) && place < share
    ensures f in Take(Rotated(queue, cursor), share)
  {
    assert Take(Rotated(queue, cursor), share)[place] == f;
  }

  /** If every scan processes at least one file of an unchanged queue, each file is
      processed within as many scans as its place in the queue, so within the queue's length. */
  lemma EveryFileIsProcessed(queue: seq<File>, cursor: Option<File>, shares: seq<nat>, f: File) returns (t: nat)
    requires Distinct(queue) && f in queue
    requires |shares| >= |queue|
    requires forall i :: 0 <= i < |shares| ==> 1 <= shares[i] <= |queue|
    ensures t < |queue| && f in Processed(queue, cursor, shares, t)
  {
    RotatedKeepsFiles(queue, cursor);
    t := 0;
    var place := IndexOf(Rotated(queue, cursor), f);
    while place >= shares[t]
      invariant 0 <= place && t + place < |queue|
      invariant WaitsAt(queue, CursorAfter(queue, cursor, shares, t), f, place)
      decreases place
    {
      PlaceAdvances(queue, CursorAfter(queue, cursor, shares, t), shares[t], f, place);
      place := place - shares[t];
      t := t + 1;
    }
    FrontIsTaken(queue, CursorAfter(queue, cursor, shares, t), shares[t], f, place);
  }

  // ---------- Both queues together ----------

  /** What a series of scans, each processing `ms[i]` candidates, takes from either queue. */
  function SharesOf(news: seq<File>, changed: seq<File>, newCursor: Option<File>, changedCursor: Option<File>,
                    ms: seq<nat>): (seq<nat>, seq<nat>)
    decreases ms
  {
    if ms == [] then ([], [])
    else
      var n, c := Rotated(news, newCursor), Rotated(changed, changedCursor);
      var candidates := Dealt(n, c);
      var a, b := Share(candidates, ms[0], n), Share(candidates, ms[0], c);
      var (later, laterChanged) :=
        SharesOf(news, changed, NextCursor(news, newCursor, a), NextCursor(changed, changedCursor, b), ms[1..]);
      ([a] + later, [b] + laterChanged)
  }

  predicate ServesFiveOrAll(m: nat, total: nat) {
    m >= PRIORITY_SLOTS + 1 || m >= total
  }

  lemma {:induction false} DealtLength(news: seq<File>, changed: seq<File>)
    ensures |Dealt(news, changed)| == |news| + |changed|
    decreases |news| + |changed|
  {
    if news != [] || changed != [] {
      DealtLength(Drop(news, PRIORITY_SLOTS), Drop(changed, 1));
    }
  }

  lemma OneScanTakesSome(news: seq<File>, changed: seq<File>, newCursor: Option<File>, changedCursor: Option<File>, m: nat)
    requires Disjoint(news, changed) && ServesFiveOrAll(m, |news| + |changed|)
    ensures
      var n, c := Rotated(news, newCursor), Rotated(changed, changedCursor);
      && (news != [] ==> 1 <= Share(Dealt(n, c), m, n) <= |news|)
      && (changed != [] ==> 1 <= Share(Dealt(n, c), m, c) <= |changed|)
  {
    var n, c := Rotated(news, newCursor), Rotated(changed, changedCursor);
    RotatedKeepsFiles(news, newCursor);
    RotatedKeepsFiles(changed, changedCursor);
    hide Rotated, Dealt, Share;
    DealtLength(n, c);
    ScanServesBoth(n, c, m);
  }

  /** Each share takes some files, and no more than there are. */
  ghost predicate AllWithin(shares: seq<nat>, n: nat) {
    forall i :: 0 <= i < |shares| ==> 1 <= shares[i] <= n
  }

  lemma OneMoreWithin(first: nat, rest: seq<nat>, n: nat)
    requires 1 <= first <= n && AllWithin(rest, n)
    ensures AllWithin([first] + rest, n)
  {}

  lemma {:induction false} EveryScanTakesSome(news: seq<File>, changed: seq<File>, newCursor: Option<File>,
                                              changedCursor: Option<File>, ms: seq<nat>)
    requires Disjoint(news, changed)
    requires forall i :: 0 <= i < |ms| ==> ServesFiveOrAll(ms[i], |news| + |changed|)
    ensures
      var (a, b) := SharesOf(news, changed, newCursor, changedCursor, ms);
      && |a| == |b| == |ms|
      && (news != [] ==> AllWithin(a, |news|))
      && (changed != [] ==> AllWithin(b, |changed|))
    decreases ms
  {
    if ms != [] {
      var n, c := Rotated(news, newCursor), Rotated(changed, changedCursor);
      var a, b := Share(Dealt(n, c), ms[0], n), Share(Dealt(n, c), ms[0], c);
      OneScanTakesSome(news, changed, newCursor, changedCursor, ms[0]);
      hide Dealt, Rotated, Share, NextCursor, Disjoint, AllWithin;
      EveryScanTakesSome(news, changed, NextCursor(news, newCursor, a), NextCursor(changed, changedCursor, b), ms[1..]);
      var (later, laterChanged) :=
        SharesOf(news, changed, NextCursor(news, newCursor, a), NextCursor(changed, changedCursor, b), ms[1..]);
      if news != [] {
        OneMoreWithin(a, later, |news|);
      }
      if changed != [] {
        OneMoreWithin(b, laterChanged, |changed|);
      }
    }
  }

  /** While the queues stay unchanged and every scan processes at least five candidates, or
      all, each file of either queue is processed within as many scans as its queue is long. */
  lemma NobodyStarves(news: seq<File>, changed: seq<File>, newCursor: Option<File>, changedCursor: Option<File>,
                      ms: seq<nat>, f: File) returns (t: nat)
    requires Distinct(news) && Distinct(changed) && Disjoint(news, changed)
    requires forall i :: 0 <= i < |ms| ==> ServesFiveOrAll(ms[i], |news| + |changed|)
    requires (f in news && |ms| >= |news|) || (f in changed && |ms| >= |changed|)
    ensures
      var (a, b) := SharesOf(news, changed, newCursor, changedCursor, ms);
      && |a| == |b| == |ms|
      && t < |ms|
      && (f in news ==> t < |news| && f in Processed(news, newCursor, a, t))
      && (f !in news ==> t < |changed| && f in Processed(changed, changedCursor, b, t))
  {
    EveryScanTakesSome(news, changed, newCursor, changedCursor, ms);
    var (a, b) := SharesOf(news, changed, newCursor, changedCursor, ms);
    if f in news {
      t := EveryFileIsProcessed(news, newCursor, a, f);
    } else {
      t := EveryFileIsProcessed(changed, changedCursor, b, f);
    }
  }
}
