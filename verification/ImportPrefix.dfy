/** What a history of scans has imported of a file: the distinct items of its prefix up to
    the furthest cursor, and what unterminated lines there already meant. */
module ImportPrefix {
  import opened Options
  import opened Lists
  import opened Jsonl
  import opened CodexContext
  import opened ImportHistory
  import Db = SessionStore

  // ---------- Cursors ----------

  lemma PrefixStays(shorter: seq<Byte>, longer: seq<Byte>, n: nat)
    requires shorter <= longer && n <= |shorter|
    ensures longer[..n] == shorter[..n]
  {}

  /** The visit starts and ends at safe cursors. */
  lemma VisitFits(reader: Reader, h: seq<Happening>)
    requires h != [] && Lawful(reader, h) && h[|h| - 1].Own?
    requires CursorsStand(h[..|h| - 1])
    ensures
      var v := h[|h| - 1].visit;
      && v.start <= High(h[..|h| - 1]) <= |v.data|
      && SafeCursor(v.data[..v.start]) && ScanOutcome(v.data, v.start, v.scan)
      && SafeCursor(v.data[..High(h[..|h| - 1])])
  {
    var before, v := h[..|h| - 1], h[|h| - 1].visit;
    PrefixStays(FileSeen(before), v.data, StoredCursor(before));
    PrefixStays(FileSeen(before), v.data, High(before));
    assert v.data[..0] == [];
  }

  /** Cursors stay inside the file and at safe places. */
  ghost predicate CursorsStand(h: seq<Happening>) {
    && StoredCursor(h) <= High(h) <= |FileSeen(h)|
    && SafeCursor(FileSeen(h)[..StoredCursor(h)])
    && SafeCursor(FileSeen(h)[..High(h)])
  }

  lemma {:induction false} CursorsFit(reader: Reader, h: seq<Happening>)
    requires Lawful(reader, h)
    ensures CursorsStand(h)
  {
    if h == [] {
      assert FileSeen(h)[..0] == [];
    } else {
      CursorsFit(reader, h[..|h| - 1]);
      if h[|h| - 1].Own? {
        VisitFits(reader, h);
        PrefixStays(FileSeen(h[..|h| - 1]), h[|h| - 1].visit.data, StoredCursor(h[..|h| - 1]));
      }
    }
  }

  /** A place where an unterminated line stood. */
  ghost predicate StandsIn(s: seq<Byte>, cursor: nat) {
    cursor < |s| && SplitOf(s[..cursor]).tail == []
  }

  /** Inside a line of permitted size no cursor is safe. */
  lemma InsideIsUnsafe(data: seq<Byte>, cursor: nat, to: nat)
    requires StandsIn(data, cursor) && cursor < to <= |data| && Unbroken(data, cursor, to) && to - cursor <= MAX_RECORD_BYTES
    ensures !SafeCursor(data[..to])
  {
    NoLineNoRecord(data, cursor, to);
    assert [] + data[cursor..to] == data[cursor..to];
  }

  /** An unterminated line that was read starts a line, and no committed cursor was beyond it. */
  lemma RestIsHigh(data: seq<Byte>, start: nat, scan: Scan, high: nat)
    requires start <= |data| && ScanOutcome(data, start, scan) && scan.rest.Some?
    requires high <= |data| && SafeCursor(data[..high])
    ensures high <= scan.safeOffset < |data| && SplitOf(data[..scan.safeOffset]).tail == []
  {
    RestStartsLine(data, scan.safeOffset, scan.rest.value);
    if scan.safeOffset < high {
      RestIsUnbroken(data, scan.safeOffset, high, scan.rest.value);
      InsideIsUnsafe(data, scan.safeOffset, high);
      assert false;
    }
  }

  lemma RestIsUnbroken(data: seq<Byte>, cursor: nat, to: nat, rest: Line)
    requires cursor <= to <= |data| && IsRest(data, cursor, rest)
    ensures Unbroken(data, cursor, to) && to - cursor <= MAX_RECORD_BYTES
  {
    assert forall i :: cursor <= i < |data| ==> data[i] == rest[i - cursor];
  }

  lemma {:induction false} SeenRestStands(reader: Reader, h: seq<Happening>, cursor: nat, t: Line)
    requires Lawful(reader, h) && SeenRest(h, cursor, t)
    ensures StandsIn(FileSeen(h), cursor)
  {
    var init, last := h[..|h| - 1], h[|h| - 1];
    var i :| 0 <= i < |h| && LeavesRest(h[i], cursor, t);
    CursorsFit(reader, init);
    if i == |h| - 1 {
      VisitFits(reader, h);
      RestIsHigh(last.visit.data, last.visit.start, last.visit.scan, High(init));
    } else {
      assert LeavesRest(init[i], cursor, t);
      SeenRestStands(reader, init, cursor, t);
      if last.Own? {
        PrefixStays(FileSeen(init), last.visit.data, cursor);
      }
    }
  }

  lemma SeenLonger(h: seq<Happening>, cursor: nat, t: Line)
    requires h != [] && SeenRest(h[..|h| - 1], cursor, t)
    ensures SeenRest(h, cursor, t)
  {
    var init := h[..|h| - 1];
    var i :| 0 <= i < |init| && LeavesRest(init[i], cursor, t);
    assert h[i] == init[i];
  }

  // ---------- Unterminated lines are completed ----------

  function NextOf(before: seq<Line>, after: seq<Line>): Option<Line> {
    if |before| < |after| then Some(after[|before|]) else None
  }

  /** When reading got beyond it, the line that was completed is the next record. */
  lemma CompletedLine(reader: Reader, data: seq<Byte>, cursor: nat, safe: nat, t: Line) returns (line: Line)
    requires StandsIn(data, cursor) && cursor < safe <= |data| && SafeCursor(data[..safe])
    requires Completes(reader, t, data, cursor)
    ensures Kept(data[..cursor]) + [line] <= Kept(data[..safe]) && SameMeaning(reader, t, line)
    ensures NextOf(Kept(data[..cursor]), Kept(data[..safe])) == Some(line)
  {
    var n := NextNewline(data, cursor, safe);
    if n == safe {
      InsideIsUnsafe(data, cursor, safe);
      assert false;
    }
    var k := n + 1;
    line := data[cursor..k];
    assert line[|line| - 1] == data[n] && Unbroken(line, 0, |line| - 1);
    assert IsLineAt(data, cursor, k);
    LineIsKept(data, cursor, k);
    KeptGrows(data, k, safe);
  }

  lemma SettledBy(reader: Reader, h: seq<Happening>, i: int)
    requires h != [] && RestsSettle(reader, h) && 0 <= i < |h| - 1
    ensures Settles(reader, h[i], h[|h| - 1])
  {}

  /** A tail means nothing for the context, or the visit finds its line completed. */
  lemma TailSettles(reader: Reader, h: seq<Happening>, cursor: nat, t: Line)
    requires h != [] && RestsSettle(reader, h) && h[|h| - 1].Imports() && SeenRest(h[..|h| - 1], cursor, t)
    ensures reader.decode(t).Ordinary? || Completes(reader, t, h[|h| - 1].visit.data, cursor)
  {
    var init := h[..|h| - 1];
    var i :| 0 <= i < |init| && LeavesRest(init[i], cursor, t);
    assert h[i] == init[i];
    SettledBy(reader, h, i);
  }

  /** If the scan moved on, the tails' line was its first record; if not, they still stand. */
  lemma TailsMeet(reader: Reader, h: seq<Happening>, cursor: nat, safe: nat, tails: seq<Line>, first: Option<Line>)
    requires h != [] && Lawful(reader, h) && RestsSettle(reader, h) && h[|h| - 1].Imports()
    requires AllSeen(h[..|h| - 1], cursor, tails) && cursor < safe <= |h[|h| - 1].visit.data|
    requires
      var data := h[|h| - 1].visit.data;
      && SafeCursor(data[..safe]) && Kept(data[..cursor]) <= Kept(data[..safe])
      && first == NextOf(Kept(data[..cursor]), Kept(data[..safe]))
    ensures forall t :: t in tails ==> reader.decode(t).Ordinary? || (first.Some? && reader.decode(t) == reader.decode(first.value))
  {
    var init, data := h[..|h| - 1], h[|h| - 1].visit.data;
    forall t | t in tails
      ensures reader.decode(t).Ordinary? || (first.Some? && reader.decode(t) == reader.decode(first.value))
    {
      TailSettles(reader, h, cursor, t);
      SeenRestStands(reader, init, cursor, t);
      PrefixStays(FileSeen(init), data, cursor);
      if !reader.decode(t).Ordinary? {
        var line := CompletedLine(reader, data, cursor, safe, t);
      }
    }
  }

  // ---------- A visit reads its records in the right context ----------

  lemma {:induction false} ItemsHeal(reader: Reader, c: Context, tails: seq<Line>, records: seq<Line>)
    requires records != [] ==> Repeats(reader.decode, tails, reader.decode(records[0]))
    ensures Items(reader, Fold(reader.decode, c, tails), records) == Items(reader, c, records)
  {
    if records != [] {
      var init, last := records[..|records| - 1], records[|records| - 1];
      ItemsHeal(reader, c, tails, init);
      if init == [] {
        RepeatsHeal(reader.decode, c, tails, reader.decode(last));
      } else {
        FirstRecordHeals(reader.decode, c, tails, init);
      }
    }
  }

  /** The tails behind the cursor after the scan. */
  function TailsAfter(v: Visit, tails: seq<Line>): seq<Line> {
    if v.scan.safeOffset == v.start then tails else []
  }

  lemma ScanHeals(reader: Reader, v: Visit, tails: seq<Line>)
    requires v.start <= |v.data| && ScanOutcome(v.data, v.start, v.scan)
    requires v.scan.safeOffset > v.start ==>
               forall t :: t in tails ==>
                 || reader.decode(t).Ordinary?
                 || (v.scan.records != [] && reader.decode(t) == reader.decode(v.scan.records[0]))
    ensures Items(reader, StartedIn(reader, v, tails), v.scan.records)
            == Items(reader, ContextOf(reader.decode, v.data[..v.start]), v.scan.records)
    ensures EndedIn(reader, v, tails)
            == Fold(reader.decode, ContextOf(reader.decode, v.data[..v.scan.safeOffset]), TailsAfter(v, tails))
  {
    var decode, c := reader.decode, ContextOf(reader.decode, v.data[..v.start]);
    FoldSplit(decode, EMPTY, Kept(v.data[..v.start]), v.scan.records);
    if v.scan.safeOffset == v.start {
      assert v.scan.records == [] by {
        assert |Kept(v.data[..v.start])| == |Kept(v.data[..v.start])| + |v.scan.records|;
      }
    } else if v.scan.records == [] {
      RepeatsHeal(decode, c, tails, Ordinary);
    } else {
      ItemsHeal(reader, c, tails, v.scan.records);
      FirstRecordHeals(decode, c, tails, v.scan.records);
    }
  }

  lemma VisitHeals(reader: Reader, h: seq<Happening>)
    requires h != [] && Lawful(reader, h) && RestsSettle(reader, h) && h[|h| - 1].Imports()
    ensures
      var v, tails := h[|h| - 1].visit, h[|h| - 1].tails;
      && v.start <= |v.data| && ScanOutcome(v.data, v.start, v.scan)
      && Items(reader, StartedIn(reader, v, tails), v.scan.records)
         == Items(reader, ContextOf(reader.decode, v.data[..v.start]), v.scan.records)
      && EndedIn(reader, v, tails)
         == Fold(reader.decode, ContextOf(reader.decode, v.data[..v.scan.safeOffset]), TailsAfter(v, tails))
  {
    var v, tails := h[|h| - 1].visit, h[|h| - 1].tails;
    CursorsFit(reader, h[..|h| - 1]);
    VisitFits(reader, h);
    if v.scan.safeOffset > v.start {
      var first := NextOf(Kept(v.data[..v.start]), Kept(v.data[..v.scan.safeOffset]));
      TailsMeet(reader, h, v.start, v.scan.safeOffset, tails, first);
    }
    ScanHeals(reader, v, tails);
  }

  // ---------- Items of unterminated lines ----------

  /** The items of unterminated lines seen at the furthest cursor. */
  function Pending(reader: Reader, h: seq<Happening>): seq<Db.Item> {
    if h == [] then []
    else
      var init, last := h[..|h| - 1], h[|h| - 1];
      (if High(h) > High(init) then [] else Pending(reader, init))
      + if last.Imports() then RestItems(reader, last.visit, last.tails) else []
  }

  /** Happening `i` read item `p` from the unterminated line `t` at the furthest cursor, in the
      context of that prefix with some of the lines seen there applied. */
  ghost predicate PendingFrom(reader: Reader, h: seq<Happening>, i: int, t: Line, tails: seq<Line>, p: Db.Item) {
    && 0 <= i < |h| && LeavesRest(h[i], High(h), t)
    && RestItems(reader, h[i].visit, h[i].tails) == [p]
    && EndedIn(reader, h[i].visit, h[i].tails)
       == Fold(reader.decode, ContextOf(reader.decode, Take(FileSeen(h), High(h))), tails)
    && AllSeen(h, High(h), tails)
  }

  ghost predicate IsPending(reader: Reader, h: seq<Happening>, p: Db.Item) {
    exists i, t, tails :: PendingFrom(reader, h, i, t, tails, p)
  }

  lemma StillPending(reader: Reader, h: seq<Happening>, p: Db.Item)
    requires h != [] && Lawful(reader, h) && IsPending(reader, h[..|h| - 1], p) && High(h) == High(h[..|h| - 1])
    ensures IsPending(reader, h, p)
  {
    var init := h[..|h| - 1];
    var i, t, tails :| PendingFrom(reader, init, i, t, tails, p);
    CursorsFit(reader, init);
    assert Take(FileSeen(h), High(h)) == Take(FileSeen(init), High(h));
    forall u | u in tails
      ensures SeenRest(h, High(h), u)
    {
      SeenLonger(h, High(h), u);
    }
    assert h[i] == init[i];
    assert PendingFrom(reader, h, i, t, tails, p);
  }

  lemma NewlyPending(reader: Reader, h: seq<Happening>, p: Db.Item)
    requires h != [] && Lawful(reader, h) && RestsSettle(reader, h) && h[|h| - 1].Imports()
    requires RestItems(reader, h[|h| - 1].visit, h[|h| - 1].tails) == [p]
    ensures IsPending(reader, h, p)
  {
    var init, v, tails := h[..|h| - 1], h[|h| - 1].visit, h[|h| - 1].tails;
    CursorsFit(reader, init);
    VisitFits(reader, h);
    RestIsHigh(v.data, v.start, v.scan, High(init));
    VisitHeals(reader, h);
    forall u | u in TailsAfter(v, tails)
      ensures SeenRest(h, High(h), u)
    {
      SeenLonger(h, High(h), u);
    }
    assert PendingFrom(reader, h, |h| - 1, v.scan.rest.value, TailsAfter(v, tails), p);
  }

  lemma RestsSettleBefore(reader: Reader, h: seq<Happening>)
    requires h != [] && RestsSettle(reader, h)
    ensures RestsSettle(reader, h[..|h| - 1])
  {
    var init := h[..|h| - 1];
    assert forall i :: 0 <= i < |init| ==> init[i] == h[i];
  }

  lemma {:induction false} PendingIsExplained(reader: Reader, h: seq<Happening>, p: Db.Item)
    requires Lawful(reader, h) && RestsSettle(reader, h) && p in Pending(reader, h)
    ensures IsPending(reader, h, p)
  {
    var init, last := h[..|h| - 1], h[|h| - 1];
    RestsSettleBefore(reader, h);
    if last.Imports() && p in RestItems(reader, last.visit, last.tails) {
      NewlyPending(reader, h, p);
    } else {
      PendingIsExplained(reader, init, p);
      StillPending(reader, h, p);
    }
  }

  // ---------- The furthest cursor moves on ----------

  /** The line that gave a pending item is the first record beyond the furthest cursor, where
      it gives the same item. */
  lemma PendingLine(reader: Reader, h: seq<Happening>, i: int, t: Line, tails: seq<Line>, p: Db.Item) returns (line: Line)
    requires h != [] && Lawful(reader, h) && RestsSettle(reader, h) && h[|h| - 1].Imports()
    requires High(h[..|h| - 1]) < High(h) && CursorsStand(h[..|h| - 1]) && CursorsStand(h)
    requires PendingFrom(reader, h[..|h| - 1], i, t, tails, p)
    ensures
      var data, low := h[|h| - 1].visit.data, High(h[..|h| - 1]);
      && Kept(data[..low]) + [line] <= Kept(data[..High(h)])
      && Parsed(reader, ContextOf(reader.decode, data[..low]), line) == [p]
  {
    var init, data, low := h[..|h| - 1], h[|h| - 1].visit.data, High(h[..|h| - 1]);
    hide Lawful, RestsSettle, SplitOf, Kept, Fold, ContextOf, Completes, CursorsStand, Parsed, SameMeaning, NextOf, FileSeen, High,
      RestItems, EndedIn, StandsIn, SafeCursor;
    StandStays(reader, h);
    assert SeenRest(init, low, t);
    SeenRestStands(reader, init, low, t);
    assert h[i] == init[i];
    SettledBy(reader, h, i);
    line := CompletedLine(reader, data, low, High(h), t);
    TailsMeet(reader, h, low, High(h), tails, Some(line));
    SameItem(reader, h[i], t, ContextOf(reader.decode, data[..low]), tails, line, p);
  }

  lemma StandStays(reader: Reader, h: seq<Happening>)
    requires h != [] && Lawful(reader, h) && h[|h| - 1].Own? && CursorsStand(h[..|h| - 1]) && CursorsStand(h)
    ensures
      var init, data := h[..|h| - 1], h[|h| - 1].visit.data;
      && High(init) <= |data| && Take(FileSeen(init), High(init)) == data[..High(init)]
      && (StandsIn(FileSeen(init), High(init)) ==> StandsIn(data, High(init)))
      && High(h) <= |data| && SafeCursor(data[..High(h)])
  {
    PrefixStays(FileSeen(h[..|h| - 1]), h[|h| - 1].visit.data, High(h[..|h| - 1]));
  }

  lemma SameItem(reader: Reader, own: Happening, t: Line, c: Context, tails: seq<Line>, line: Line, p: Db.Item)
    requires own.Own? && own.visit.scan.rest == Some(t) && RestItems(reader, own.visit, own.tails) == [p]
    requires EndedIn(reader, own.visit, own.tails) == Fold(reader.decode, c, tails)
    requires SameMeaning(reader, t, line)
    requires forall u :: u in tails ==> reader.decode(u).Ordinary? || reader.decode(u) == reader.decode(line)
    ensures Parsed(reader, c, line) == [p]
  {
    assert reader.decode(t).Ordinary?;
    RepeatsHeal(reader.decode, c, tails, Ordinary);
  }

  /** What an unterminated line was taken for is the first new item once the line is passed. */
  lemma PendingComesFirst(reader: Reader, h: seq<Happening>, p: Db.Item)
    requires h != [] && Lawful(reader, h) && RestsSettle(reader, h) && High(h) > High(h[..|h| - 1])
    requires p in Pending(reader, h[..|h| - 1])
    ensures
      var before, after := ItemsAt(reader, h, High(h[..|h| - 1])), ItemsAt(reader, h, High(h));
      |before| < |after| && after[|before|] == p
  {
    var init, data, low, high := h[..|h| - 1], h[|h| - 1].visit.data, High(h[..|h| - 1]), High(h);
    RestsSettleBefore(reader, h);
    PendingIsExplained(reader, init, p);
    var i, t, tails :| PendingFrom(reader, init, i, t, tails, p);
    CursorsFit(reader, init);
    CursorsFit(reader, h);
    var line := PendingLine(reader, h, i, t, tails, p);
    NextItem(reader, Kept(data[..low]), line, Kept(data[..high]));
  }

  /** The items of the file seen last, up to `n`. */
  function ItemsAt(reader: Reader, h: seq<Happening>, n: nat): seq<Db.Item> {
    ItemsOf(reader, Take(FileSeen(h), n))
  }

  lemma NextItem(reader: Reader, before: seq<Line>, line: Line, after: seq<Line>)
    requires before + [line] <= after && Parsed(reader, Fold(reader.decode, EMPTY, before), line) != []
    ensures |Items(reader, EMPTY, before)| < |Items(reader, EMPTY, after)|
    ensures Items(reader, EMPTY, after)[|Items(reader, EMPTY, before)|] == Parsed(reader, Fold(reader.decode, EMPTY, before), line)[0]
  {
    var upTo := before + [line];
    assert after == upTo + after[|upTo|..];
    ItemsSplit(reader, EMPTY, upTo, after[|upTo|..]);
    assert upTo[..|before|] == before;
  }

  /** Items read from `start` to `safe` repeat what lies before `high` and then go beyond. */
  lemma Overlap(reader: Reader, data: seq<Byte>, start: nat, safe: nat, high: nat, items: seq<Db.Item>)
    returns (repeated: seq<Db.Item>)
    requires start <= high <= |data| && safe <= |data|
    requires ItemsOf(reader, data[..safe]) == ItemsOf(reader, data[..start]) + items
    ensures forall item :: item in repeated ==> item in ItemsOf(reader, data[..high])
    ensures items == repeated + if safe > high then Drop(ItemsOf(reader, data[..safe]), |ItemsOf(reader, data[..high])|) else []
  {
    var first, seen, upTo := ItemsOf(reader, data[..start]), ItemsOf(reader, data[..high]), ItemsOf(reader, data[..safe]);
    ItemsGrow(reader, data, start, high);
    if safe <= high {
      ItemsGrow(reader, data, safe, high);
    } else {
      ItemsGrow(reader, data, high, safe);
    }
    hide ItemsOf;
    repeated := ListsOverlap(first, seen, upTo, items, safe > high);
  }

  lemma ListsOverlap(first: seq<Db.Item>, seen: seq<Db.Item>, upTo: seq<Db.Item>, items: seq<Db.Item>, further: bool)
    returns (repeated: seq<Db.Item>)
    requires upTo == first + items && first <= seen && if further then seen <= upTo else upTo <= seen
    ensures forall item :: item in repeated ==> item in seen
    ensures items == repeated + if further then Drop(upTo, |seen|) else []
  {
    if further {
      repeated := seen[|first|..];
      assert items == upTo[|first|..];
    } else {
      repeated := items;
      assert forall item :: item in items ==> item in upTo;
    }
  }

  /** A committed visit reads old items, then exactly those up to its cursor that are beyond
      the furthest one, and then what an unterminated last line already means. */
  lemma VisitRepeatsThenAdds(reader: Reader, h: seq<Happening>) returns (repeated: seq<Db.Item>)
    requires h != [] && Lawful(reader, h) && RestsSettle(reader, h) && h[|h| - 1].Imports()
    ensures forall item :: item in repeated ==> item in ItemsAt(reader, h, High(h[..|h| - 1]))
    ensures Read(reader, h[|h| - 1].visit, h[|h| - 1].tails)
            == repeated
               + (if High(h) > High(h[..|h| - 1])
                  then Drop(ItemsAt(reader, h, High(h)), |ItemsAt(reader, h, High(h[..|h| - 1]))|) else [])
               + RestItems(reader, h[|h| - 1].visit, h[|h| - 1].tails)
  {
    var v, low := h[|h| - 1].visit, High(h[..|h| - 1]);
    CursorsFit(reader, h[..|h| - 1]);
    VisitFits(reader, h);
    VisitHeals(reader, h);
    var items := Items(reader, ContextOf(reader.decode, v.data[..v.start]), v.scan.records);
    ItemsSplit(reader, EMPTY, Kept(v.data[..v.start]), v.scan.records);
    repeated := Overlap(reader, v.data, v.start, v.scan.safeOffset, low, items);
  }

  /** The prefix's items and the pending ones, without repetitions. */
  function PrefixOnce(reader: Reader, h: seq<Happening>): seq<Db.Item> {
    Distinct(ItemsAt(reader, h, High(h)) + Pending(reader, h))
  }

  /** What one visit adds to the distinct items of a prefix. */
  lemma Joined(known: seq<Db.Item>, pending: seq<Db.Item>, repeated: seq<Db.Item>, next: seq<Db.Item>, rest: seq<Db.Item>)
    requires forall x :: x in repeated ==> x in known
    requires next != [] ==> forall x :: x in pending ==> x == next[0]
    ensures Join(Distinct(known + pending), repeated + next + rest)
            == if next == [] then Distinct(known + (pending + rest)) else Distinct((known + next) + ([] + rest))
  {
    var whole := Distinct(known + pending);
    JoinSplit([], known, pending);
    JoinSplit(whole, repeated + next, rest);
    JoinSplit(whole, repeated, next);
    JoinKnown(whole, repeated);
    if next == [] {
      JoinSplit([], known, pending + rest);
      JoinSplit(Distinct(known), pending, rest);
    } else {
      JoinAhead(Distinct(known), pending, next);
      JoinSplit([], known, next);
      JoinSplit([], known + next, [] + rest);
      assert [] + rest == rest;
    }
  }

  // ---------- The result ----------

  lemma PrefixGrows(reader: Reader, h: seq<Happening>)
    requires h != [] && Lawful(reader, h)
    ensures ItemsAt(reader, h[..|h| - 1], High(h[..|h| - 1])) == ItemsAt(reader, h, High(h[..|h| - 1]))
    ensures ItemsAt(reader, h, High(h[..|h| - 1])) <= ItemsAt(reader, h, High(h))
  {
    var init := h[..|h| - 1];
    CursorsFit(reader, init);
    CursorsFit(reader, h);
    if h[|h| - 1].Own? {
      PrefixStays(FileSeen(init), FileSeen(h), High(init));
    }
    ItemsGrow(reader, FileSeen(h), High(init), High(h));
  }

  /** The step of the main result, for a committed visit. */
  lemma VisitAdds(reader: Reader, h: seq<Happening>)
    requires h != [] && Lawful(reader, h) && RestsSettle(reader, h) && h[|h| - 1].Imports()
    requires OwnOnce(reader, h[..|h| - 1]) == PrefixOnce(reader, h[..|h| - 1])
    ensures OwnOnce(reader, h) == PrefixOnce(reader, h)
  {
    var init := h[..|h| - 1];
    var known, pending := ItemsAt(reader, h, High(init)), Pending(reader, init);
    var rest := RestItems(reader, h[|h| - 1].visit, h[|h| - 1].tails);
    var next := if High(h) > High(init) then Drop(ItemsAt(reader, h, High(h)), |known|) else [];
    PrefixGrows(reader, h);
    var repeated := VisitRepeatsThenAdds(reader, h);
    if High(h) > High(init) {
      forall p | p in pending
        ensures next != [] && p == next[0]
      {
        PendingComesFirst(reader, h, p);
      }
      assert ItemsAt(reader, h, High(h)) == known + next;
      if next == [] && pending != [] {
        PendingComesFirst(reader, h, pending[0]);
        assert false;
      }
      assert known + [] == known;
    }
    Joined(known, pending, repeated, next, rest);
  }

  /** The file's own items, each where it was first read, are the distinct items of its prefix
      up to the furthest cursor, followed by what unterminated lines there already meant. */
  lemma {:induction false} OwnOnceIsPrefix(reader: Reader, h: seq<Happening>)
    requires Lawful(reader, h) && RestsSettle(reader, h)
    ensures OwnOnce(reader, h) == PrefixOnce(reader, h)
  {
    if h == [] {
      assert Kept([]) == [];
    } else {
      RestsSettleBefore(reader, h);
      OwnOnceIsPrefix(reader, h[..|h| - 1]);
      if h[|h| - 1].Imports() {
        VisitAdds(reader, h);
      } else {
        PrefixGrows(reader, h);
        assert High(h) == High(h[..|h| - 1]);
        assert Pending(reader, h) == Pending(reader, h[..|h| - 1]) + [] == Pending(reader, h[..|h| - 1]);
        assert PrefixOnce(reader, h) == PrefixOnce(reader, h[..|h| - 1]);
      }
    }
  }

  lemma PendingStands(reader: Reader, h: seq<Happening>, p: Db.Item)
    requires Lawful(reader, h) && RestsSettle(reader, h) && p in Pending(reader, h)
    ensures High(h) < |FileSeen(h)|
  {
    PendingIsExplained(reader, h, p);
    var i, t, tails :| PendingFrom(reader, h, i, t, tails, p);
    SeenRestStands(reader, h, High(h), t);
  }

  lemma NothingPending(reader: Reader, h: seq<Happening>)
    requires Lawful(reader, h) && RestsSettle(reader, h) && High(h) == |FileSeen(h)|
    ensures Pending(reader, h) == []
  {
    if Pending(reader, h) != [] {
      PendingStands(reader, h, Pending(reader, h)[0]);
      assert false;
    }
  }

  /** Once a scan has read the file to its end behind a newline, exactly the file's distinct
      items have been imported, in file order. */
  lemma WholeFileOnce(reader: Reader, h: seq<Happening>)
    requires Lawful(reader, h) && RestsSettle(reader, h) && StoredCursor(h) == |FileSeen(h)|
    ensures OwnOnce(reader, h) == Distinct(ItemsOf(reader, FileSeen(h)))
  {
    CursorsFit(reader, h);
    OwnOnceIsPrefix(reader, h);
    assert FileSeen(h)[..|FileSeen(h)|] == FileSeen(h);
    NothingPending(reader, h);
    assert ItemsOf(reader, FileSeen(h)) + [] == ItemsOf(reader, FileSeen(h));
  }
}
