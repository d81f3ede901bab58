/** Importing a growing file in budgeted, interrupted, restarted scans, among imports of
    other files, leaves the same store as importing each of its records once. */
module ImportHistory {
  import opened Options
  import opened Lists
  import opened Jsonl
  import opened CodexContext
  import Db = SessionStore
  import SessionReplay

  /** How lines become records: some only change the context, the others may be parsed in it. */
  datatype Reader = Reader(decode: Decoder, parse: (Context, Line) -> Option<Db.Item>)

  function Parsed(reader: Reader, c: Context, line: Line): seq<Db.Item> {
    if !reader.decode(line).Ordinary? then []
    else match reader.parse(c, line) case None => [] case Some(item) => [item]
  }

  function Items(reader: Reader, c: Context, lines: seq<Line>): seq<Db.Item> {
    if lines == [] then []
    else
      var init := lines[..|lines| - 1];
      Items(reader, c, init) + Parsed(reader, Fold(reader.decode, c, init), lines[|lines| - 1])
  }

  /** The items of a prefix of the file, read in one go from its start. */
  function ItemsOf(reader: Reader, s: seq<Byte>): seq<Db.Item> {
    Items(reader, EMPTY, Kept(s))
  }

  lemma {:induction false} ItemsSplit(reader: Reader, c: Context, a: seq<Line>, b: seq<Line>)
    ensures Items(reader, c, a + b) == Items(reader, c, a) + Items(reader, Fold(reader.decode, c, a), b)
  {
    if b == [] {
      assert a + b == a;
    } else {
      var init := b[..|b| - 1];
      assert (a + b)[..|a + b| - 1] == a + init;
      ItemsSplit(reader, c, a, init);
      FoldSplit(reader.decode, c, a, init);
    }
  }

  lemma ItemsGrow(reader: Reader, data: seq<Byte>, a: nat, b: nat)
    requires a <= b <= |data|
    ensures ItemsOf(reader, data[..a]) <= ItemsOf(reader, data[..b])
  {
    KeptGrows(data, a, b);
    var short, long := Kept(data[..a]), Kept(data[..b]);
    assert long == short + long[|short|..];
    ItemsSplit(reader, EMPTY, short, long[|short|..]);
  }

  // ---------- Histories ----------

  /** A visit of the file, or an import of other files. The tails are the unterminated last
      lines that had been applied to the context in which the visit resumed. */
  datatype Happening = Own(visit: Visit, tails: seq<Line>) | Other(items: seq<Db.Item>) {
    predicate Imports() {
      Own? && visit.Committed()
    }
  }

  /** The file as last seen. */
  function FileSeen(h: seq<Happening>): seq<Byte> {
    if h == [] then []
    else if h[|h| - 1].Own? then h[|h| - 1].visit.data
    else FileSeen(h[..|h| - 1])
  }

  function StoredCursor(h: seq<Happening>): nat {
    if h == [] then 0
    else if h[|h| - 1].Imports() then h[|h| - 1].visit.scan.safeOffset
    else StoredCursor(h[..|h| - 1])
  }

  /** The furthest committed cursor. */
  function High(h: seq<Happening>): nat {
    if h == [] then 0
    else
      var before, last := High(h[..|h| - 1]), h[|h| - 1];
      if last.Imports() && last.visit.scan.safeOffset > before then last.visit.scan.safeOffset else before
  }

  /** The context a visit started with, after its records, and its items. */
  function StartedIn(reader: Reader, visit: Visit, tails: seq<Line>): Context {
    Fold(reader.decode, ContextOf(reader.decode, Take(visit.data, visit.start)), tails)
  }

  function EndedIn(reader: Reader, visit: Visit, tails: seq<Line>): Context {
    Fold(reader.decode, StartedIn(reader, visit, tails), visit.scan.records)
  }

  function RestItems(reader: Reader, visit: Visit, tails: seq<Line>): seq<Db.Item> {
    if visit.scan.rest.None? then [] else Parsed(reader, EndedIn(reader, visit, tails), visit.scan.rest.value)
  }

  /** What a visit imports: its records' items, and that of an unterminated last line, which
      may be a whole record already. */
  function Read(reader: Reader, visit: Visit, tails: seq<Line>): seq<Db.Item> {
    Items(reader, StartedIn(reader, visit, tails), visit.scan.records) + RestItems(reader, visit, tails)
  }

  /** A committed visit ended with the unterminated line `t` at `cursor`. */
  predicate LeavesRest(happening: Happening, cursor: nat, t: Line) {
    happening.Imports() && happening.visit.scan.rest == Some(t) && happening.visit.scan.safeOffset == cursor
  }

  ghost predicate SeenRest(h: seq<Happening>, cursor: nat, t: Line) {
    exists i :: 0 <= i < |h| && LeavesRest(h[i], cursor, t)
  }

  ghost predicate AllSeen(h: seq<Happening>, cursor: nat, tails: seq<Line>) {
    forall t :: t in tails ==> SeenRest(h, cursor, t)
  }

  /** What an import run can look like: the file grows; each visit starts at the stored cursor
      or over, in the context of that prefix, to which unterminated lines seen behind it may
      have been applied. */
  ghost predicate Lawful(reader: Reader, h: seq<Happening>) {
    h != [] ==> Lawful(reader, h[..|h| - 1]) && (h[|h| - 1].Own? ==> LawfulVisit(h[..|h| - 1], h[|h| - 1].visit, h[|h| - 1].tails))
  }

  ghost predicate LawfulVisit(before: seq<Happening>, v: Visit, tails: seq<Line>) {
    && FileSeen(before) <= v.data
    && (v.start == 0 || v.start == StoredCursor(before))
    && v.start <= |v.data|
    && (SafeCursor(v.data[..v.start]) ==> ScanOutcome(v.data, v.start, v.scan))
    && AllSeen(before, v.start, tails)
  }

  // ---------- Unterminated lines that mean something already ----------

  /** Two lines are read as the same record. */
  ghost predicate SameMeaning(reader: Reader, a: Line, b: Line) {
    reader.decode(a) == reader.decode(b) && forall c :: reader.parse(c, a) == reader.parse(c, b)
  }

  /** The line at `cursor` stays within the permitted size and, once terminated, means what
      `t` meant. */
  ghost predicate Completes(reader: Reader, t: Line, data: seq<Byte>, cursor: nat) {
    && (forall k: nat :: cursor <= k <= |data| && Unbroken(data, cursor, k) ==> k - cursor <= MAX_RECORD_BYTES)
    && (forall k :: IsLineAt(data, cursor, k) ==> k - cursor <= MAX_RECORD_BYTES && SameMeaning(reader, t, data[cursor..k]))
  }

  /** Whatever a visit already made of an unterminated line, the file's writer only completes it. */
  ghost predicate Settles(reader: Reader, earlier: Happening, later: Happening) {
    earlier.Imports() && earlier.visit.scan.rest.Some? && later.Imports() ==>
      var t := earlier.visit.scan.rest.value;
      || (reader.decode(t).Ordinary? && RestItems(reader, earlier.visit, earlier.tails) == [])
      || Completes(reader, t, later.visit.data, earlier.visit.scan.safeOffset)
  }

  ghost predicate RestsSettle(reader: Reader, h: seq<Happening>) {
    forall i, j :: 0 <= i < j < |h| ==> Settles(reader, h[i], h[j])
  }

  // ---------- What is imported, and what that amounts to ----------

  /** The store after the committed visits and other imports. */
  function StoreAfter(reader: Reader, s: Db.Store, h: seq<Happening>): Db.Store {
    if h == [] then s
    else
      var before, last := StoreAfter(reader, s, h[..|h| - 1]), h[|h| - 1];
      if last.Other? then Db.ImportAll(before, last.items)
      else if last.Imports() then Db.ImportAll(before, Read(reader, last.visit, last.tails))
      else before
  }

  /** The file's own items, each where it was first read. */
  function OwnOnce(reader: Reader, h: seq<Happening>): seq<Db.Item> {
    if h == [] then []
    else
      var before, last := OwnOnce(reader, h[..|h| - 1]), h[|h| - 1];
      if last.Imports() then Join(before, Read(reader, last.visit, last.tails)) else before
  }

  /** The own items that the last happening reads for the first time. */
  function New(reader: Reader, h: seq<Happening>): seq<Db.Item>
    requires h != []
  {
    Drop(OwnOnce(reader, h), |OwnOnce(reader, h[..|h| - 1])|)
  }

  /** Each own item once, where it was first read, and others as they come. */
  function Once(reader: Reader, h: seq<Happening>): seq<Db.Item> {
    if h == [] then []
    else Once(reader, h[..|h| - 1]) + if h[|h| - 1].Other? then h[|h| - 1].items else New(reader, h)
  }

  lemma NewExtends(reader: Reader, h: seq<Happening>)
    requires h != []
    ensures OwnOnce(reader, h) == OwnOnce(reader, h[..|h| - 1]) + New(reader, h)
  {}

  lemma {:induction false} OwnIsAmongOnce(reader: Reader, h: seq<Happening>)
    ensures forall item :: item in OwnOnce(reader, h) ==> item in Once(reader, h)
  {
    if h != [] {
      OwnIsAmongOnce(reader, h[..|h| - 1]);
      NewExtends(reader, h);
    }
  }

  /** Importing what was read has the effect of importing what is new in it, whatever the
      rest repeats. */
  lemma {:induction false} RepeatsAreIdle(s: Db.Store, once: seq<Db.Item>, own: seq<Db.Item>, read: seq<Db.Item>)
    requires SessionReplay.Chronological(once + Drop(Join(own, read), |own|))
    requires forall item :: item in own ==> item in once
    ensures Db.ImportAll(Db.ImportAll(s, once), read) == Db.ImportAll(s, once + Drop(Join(own, read), |own|))
  {
    if read == [] {
      assert once + [] == once;
    } else {
      var init, last := read[..|read| - 1], read[|read| - 1];
      var before, after := once + Drop(Join(own, init), |own|), once + Drop(Join(own, read), |own|);
      assert before <= after;
      assert SessionReplay.Chronological(before) by {
        assert forall i :: 0 <= i < |before| ==> after[i] == before[i];
      }
      RepeatsAreIdle(s, once, own, init);
      if last in Join(own, init) {
        assert Join(own, init) == own + Drop(Join(own, init), |own|);
        assert last in before;
        assert [last][..0] == [] && Db.ImportAll(Db.ImportAll(s, before), []) == Db.ImportAll(s, before);
        SessionReplay.ReplayIsHarmless(s, before, [last]);
      } else {
        assert after == before + [last];
        assert after[..|after| - 1] == before;
      }
    }
  }

  /** Resumed, repeated and interleaved importing has the effect of importing every item
      once, in the order in which the items were first read. */
  lemma {:induction false} ResumedIsOneShot(reader: Reader, s: Db.Store, h: seq<Happening>)
    requires SessionReplay.Chronological(Once(reader, h))
    ensures StoreAfter(reader, s, h) == Db.ImportAll(s, Once(reader, h))
  {
    if h != [] {
      var before, last := h[..|h| - 1], h[|h| - 1];
      var once := Once(reader, before);
      assert SessionReplay.Chronological(once) by {
        assert forall i :: 0 <= i < |once| ==> Once(reader, h)[i] == once[i];
      }
      ResumedIsOneShot(reader, s, before);
      if last.Other? {
        Db.ImportAllSplit(s, once, last.items);
      } else if last.Imports() {
        OwnIsAmongOnce(reader, before);
        RepeatsAreIdle(s, once, OwnOnce(reader, before), Read(reader, last.visit, last.tails));
      } else {
        assert once + [] == once;
      }
    }
  }
}
