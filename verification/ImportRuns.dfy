/** Whole import runs: visits of Codex files over the cache of contexts, among other imports.
    Seen from one file each run is an import history, so its records are imported once. */
module ImportRuns {
  import opened Options
  import opened Lists
  import opened Jsonl
  import opened CodexContext
  import opened CacheRuns
  import opened CacheSoundness
  import opened ImportHistory
  import opened ImportPrefix
  import Db = SessionStore
  import SessionReplay

  /** A step of the context cache, with the import it belongs to, or an import of other records. */
  datatype Deed = OfCache(step: Step) | Foreign(items: seq<Db.Item>)

  function Steps(deeds: seq<Deed>): seq<Step> {
    if deeds == [] then []
    else Steps(deeds[..|deeds| - 1]) + if deeds[|deeds| - 1].OfCache? then [deeds[|deeds| - 1].step] else []
  }

  predicate IsVisitOf(deed: Deed, file: string) {
    deed.OfCache? && deed.step.Visited? && deed.step.v.file == file && deed.step.v.from.At?
  }

  predicate Commits(v: Visiting) {
    v.committed && v.from.At? && v.scan.end != RolledBack
  }

  /** The checkpoint that the last committed visit recorded. */
  function LastCheckpoint(deeds: seq<Deed>, file: string): Option<Checkpoint> {
    if deeds == [] then None
    else
      var last := deeds[|deeds| - 1];
      if IsVisitOf(last, file) && Commits(last.step.v) then Some(Checkpoint(last.step.v.scan.safeOffset, last.step.v.stamp))
      else LastCheckpoint(deeds[..|deeds| - 1], file)
  }

  /** Each visit finds the checkpoint of its file and the cache as they were left. */
  ghost predicate IsImport(decode: Decoder, deeds: seq<Deed>) {
    deeds != [] ==>
      var init, last := deeds[..|deeds| - 1], deeds[|deeds| - 1];
      && IsImport(decode, init)
      && (last.OfCache? && last.step.Visited? ==>
            && IsVisit(decode, EntriesAfter(decode, Steps(init)), last.step.v)
            && last.step.v.checkpoint == LastCheckpoint(init, last.step.v.file))
  }

  lemma {:induction false} ImportIsRun(decode: Decoder, deeds: seq<Deed>)
    requires IsImport(decode, deeds)
    ensures IsRun(decode, Steps(deeds))
  {
    if deeds != [] {
      var init, last := deeds[..|deeds| - 1], deeds[|deeds| - 1];
      ImportIsRun(decode, init);
      if last.OfCache? {
        assert Steps(deeds)[..|Steps(deeds)| - 1] == Steps(init);
      } else {
        assert Steps(deeds) == Steps(init);
      }
    }
  }

  /** What a visit hands to the store. */
  function ReadBy(reader: Reader, v: Visiting): seq<Db.Item> {
    if !Commits(v) then []
    else
      Items(reader, v.from.context, v.scan.records)
      + if v.scan.rest.None? then []
        else Parsed(reader, Fold(reader.decode, v.from.context, v.scan.records), v.scan.rest.value)
  }

  function ImportedBy(reader: Reader, deed: Deed): seq<Db.Item> {
    if deed.Foreign? then deed.items else if deed.step.Visited? then ReadBy(reader, deed.step.v) else []
  }

  /** The store after all imports of a run. */
  function StoreOf(reader: Reader, s: Db.Store, deeds: seq<Deed>): Db.Store {
    if deeds == [] then s
    else Db.ImportAll(StoreOf(reader, s, deeds[..|deeds| - 1]), ImportedBy(reader, deeds[|deeds| - 1]))
  }

  // ---------- The run, seen from one file ----------

  function TailsOf(decode: Decoder, before: seq<Step>, v: Visiting): seq<Line> {
    if v.from.At? && v.from.reused then Tails(decode, before, v.file) else []
  }

  /** A scan whose transaction fails hands nothing on. */
  function ScanOf(v: Visiting): Scan {
    if v.committed then v.scan else v.scan.(rest := None, end := RolledBack)
  }

  function SeenFrom(reader: Reader, before: seq<Deed>, deed: Deed, file: string): Happening {
    if IsVisitOf(deed, file)
    then Own(Visit(deed.step.v.data, deed.step.v.from.start, ScanOf(deed.step.v)), TailsOf(reader.decode, Steps(before), deed.step.v))
    else Other(ImportedBy(reader, deed))
  }

  function HistoryOf(reader: Reader, deeds: seq<Deed>, file: string): (h: seq<Happening>)
    ensures |h| == |deeds|
  {
    if deeds == [] then []
    else HistoryOf(reader, deeds[..|deeds| - 1], file) + [SeenFrom(reader, deeds[..|deeds| - 1], deeds[|deeds| - 1], file)]
  }

  lemma HistoryStep(reader: Reader, deeds: seq<Deed>, file: string)
    requires deeds != []
    ensures
      var h := HistoryOf(reader, deeds, file);
      && h[..|h| - 1] == HistoryOf(reader, deeds[..|deeds| - 1], file)
      && h[|h| - 1] == SeenFrom(reader, deeds[..|deeds| - 1], deeds[|deeds| - 1], file)
  {}

  /** The file is only ever appended to. */
  ghost predicate Appended(deeds: seq<Deed>, file: string) {
    forall i, j :: 0 <= i < j < |deeds| && IsVisitOf(deeds[i], file) && IsVisitOf(deeds[j], file)
      ==> deeds[i].step.v.data <= deeds[j].step.v.data
  }

  lemma {:induction false} FileSeenIsVisited(reader: Reader, deeds: seq<Deed>, file: string)
    ensures
      var seen := FileSeen(HistoryOf(reader, deeds, file));
      seen == [] || exists i :: 0 <= i < |deeds| && IsVisitOf(deeds[i], file) && deeds[i].step.v.data == seen
  {
    if deeds != [] {
      var init, last := deeds[..|deeds| - 1], deeds[|deeds| - 1];
      HistoryStep(reader, deeds, file);
      FileSeenIsVisited(reader, init, file);
      if IsVisitOf(last, file) {
        assert deeds[|deeds| - 1].step.v.data == FileSeen(HistoryOf(reader, deeds, file));
      } else if FileSeen(HistoryOf(reader, init, file)) != [] {
        var i :| 0 <= i < |init| && IsVisitOf(init[i], file) && init[i].step.v.data == FileSeen(HistoryOf(reader, init, file));
        assert deeds[i] == init[i];
      }
    }
  }

  lemma {:induction false} CheckpointIsCursor(reader: Reader, deeds: seq<Deed>, file: string)
    ensures
      match LastCheckpoint(deeds, file)
      case None => StoredCursor(HistoryOf(reader, deeds, file)) == 0
      case Some(checkpoint) => checkpoint.offset == StoredCursor(HistoryOf(reader, deeds, file))
  {
    if deeds != [] {
      HistoryStep(reader, deeds, file);
      CheckpointIsCursor(reader, deeds[..|deeds| - 1], file);
    }
  }

  /** Step `k` of the cache belongs to a deed that looks the same from its file. */
  lemma {:induction false} StepIsSeen(reader: Reader, deeds: seq<Deed>, file: string, k: int) returns (i: int)
    requires 0 <= k < |Steps(deeds)|
    ensures 0 <= i < |deeds| && deeds[i] == OfCache(Steps(deeds)[k])
    ensures Steps(deeds[..i]) == Steps(deeds)[..k]
    ensures HistoryOf(reader, deeds, file)[i] == SeenFrom(reader, deeds[..i], deeds[i], file)
  {
    var init, last := deeds[..|deeds| - 1], deeds[|deeds| - 1];
    HistoryStep(reader, deeds, file);
    if k == |Steps(deeds)| - 1 && last.OfCache? {
      i := |deeds| - 1;
    } else {
      i := StepIsSeen(reader, init, file, k);
      assert init[..i] == deeds[..i];
      assert HistoryOf(reader, init, file)[i] == HistoryOf(reader, deeds, file)[i];
    }
  }

  lemma {:induction false} StepsGrow(deeds: seq<Deed>, i: nat, j: nat)
    requires i <= j <= |deeds|
    ensures |Steps(deeds[..i])| <= |Steps(deeds[..j])|
  {
    if i < j {
      StepsGrow(deeds, i, j - 1);
      assert deeds[..j][..j - 1] == deeds[..j - 1];
    }
  }

  // ---------- Unterminated lines, seen from the cache ----------

  lemma SettledKeepsMeaning(reader: Reader, earlier: Visiting, later: Visiting, a: seq<Deed>, b: seq<Deed>)
    requires Commits(earlier) && Commits(later) && earlier.file == later.file
    requires Settles(reader, SeenFrom(reader, a, OfCache(Visited(earlier)), earlier.file),
                     SeenFrom(reader, b, OfCache(Visited(later)), earlier.file))
    ensures KeepsMeaning(reader.decode, earlier, later)
  {}

  lemma StoredCommits(decode: Decoder, v: Visiting)
    requires Stores(decode, v)
    ensures Commits(v)
  {}

  lemma SettledLinesKeepMeaning(reader: Reader, deeds: seq<Deed>, file: string)
    requires RestsSettle(reader, HistoryOf(reader, deeds, file))
    ensures LinesKeepMeaning(reader.decode, Steps(deeds), file)
  {
    var steps, h := Steps(deeds), HistoryOf(reader, deeds, file);
    forall k, l | 0 <= k < l < |steps| && StoresFor(reader.decode, steps[k], file) && StoresFor(reader.decode, steps[l], file)
      ensures KeepsMeaning(reader.decode, steps[k].v, steps[l].v)
    {
      var i := StepIsSeen(reader, deeds, file, k);
      var j := StepIsSeen(reader, deeds, file, l);
      if j <= i {
        StepsGrow(deeds, j, i);
        assert false;
      }
      assert Settles(reader, h[i], h[j]);
      StoredCommits(reader.decode, steps[k].v);
      StoredCommits(reader.decode, steps[l].v);
      SettledKeepsMeaning(reader, steps[k].v, steps[l].v, deeds[..i], deeds[..j]);
    }
  }

  /** An unterminated line behind an entry was left by an earlier visit of the history. */
  lemma TailIsSeenRest(reader: Reader, deeds: seq<Deed>, file: string, prefix: seq<Byte>, t: Line)
    requires SeenTail(reader.decode, Steps(deeds), file, prefix, t)
    ensures SeenRest(HistoryOf(reader, deeds, file), |prefix|, t)
  {
    var steps := Steps(deeds);
    var k :| 0 <= k < |steps| && LeavesTail(reader.decode, steps[k], file, prefix, t);
    var i := StepIsSeen(reader, deeds, file, k);
    StoredCommits(reader.decode, steps[k].v);
    assert LeavesRest(HistoryOf(reader, deeds, file)[i], |prefix|, t);
  }

  // ---------- Every file's history is lawful ----------

  /** The visit of the last deed resumed as the history says, in the context it says. */
  lemma VisitIsLawful(reader: Reader, before: seq<Deed>, v: Visiting)
    requires IsImport(reader.decode, before) && RestsSettle(reader, HistoryOf(reader, before, v.file))
    requires IsVisit(reader.decode, EntriesAfter(reader.decode, Steps(before)), v) && v.from.At?
    requires v.checkpoint == LastCheckpoint(before, v.file)
    requires FileSeen(HistoryOf(reader, before, v.file)) <= v.data
    ensures
      var visit, tails := Visit(v.data, v.from.start, ScanOf(v)), TailsOf(reader.decode, Steps(before), v);
      && LawfulVisit(HistoryOf(reader, before, v.file), visit, tails)
      && StartedIn(reader, visit, tails) == v.from.context
  {
    hide EntriesAfter, Opened, Steps, RestsSettle, IsImport, Fold, ContextOf, SeenRest, SafeCursor, Stores, LinesKeepMeaning;
    ImportIsRun(reader.decode, before);
    SettledLinesKeepMeaning(reader, before, v.file);
    var tails := VisitStartsWith(reader.decode, Steps(before), v);
    CheckpointIsCursor(reader, before, v.file);
    StartIsRecorded(reader.decode, EntriesAfter(reader.decode, Steps(before)), v);
    forall t | t in tails
      ensures SeenRest(HistoryOf(reader, before, v.file), v.from.start, t)
    {
      TailIsSeenRest(reader, before, v.file, v.data[..v.from.start], t);
    }
  }

  lemma StartIsRecorded(decode: Decoder, entries: seq<Entry>, v: Visiting)
    requires Opened(decode, entries, v) && v.from.At?
    ensures v.from.start == 0 || (v.checkpoint.Some? && v.from.start == v.checkpoint.value.offset)
  {}

  lemma AppendedBefore(deeds: seq<Deed>, file: string)
    requires deeds != [] && Appended(deeds, file)
    ensures Appended(deeds[..|deeds| - 1], file)
  {
    var init := deeds[..|deeds| - 1];
    assert forall i :: 0 <= i < |init| ==> init[i] == deeds[i];
  }

  lemma FileSeenGrows(reader: Reader, deeds: seq<Deed>, file: string)
    requires deeds != [] && Appended(deeds, file) && IsVisitOf(deeds[|deeds| - 1], file)
    ensures FileSeen(HistoryOf(reader, deeds[..|deeds| - 1], file)) <= deeds[|deeds| - 1].step.v.data
  {
    var init := deeds[..|deeds| - 1];
    FileSeenIsVisited(reader, init, file);
    var seen := FileSeen(HistoryOf(reader, init, file));
    if seen != [] {
      var i :| 0 <= i < |init| && IsVisitOf(init[i], file) && init[i].step.v.data == seen;
      assert deeds[i] == init[i];
    }
  }

  /** Seen from any file that is only appended to, an import run is a lawful history. */
  lemma {:induction false} HistoryIsLawful(reader: Reader, deeds: seq<Deed>, file: string)
    requires IsImport(reader.decode, deeds) && Appended(deeds, file) && RestsSettle(reader, HistoryOf(reader, deeds, file))
    ensures Lawful(reader, HistoryOf(reader, deeds, file))
  {
    if deeds != [] {
      HistoryStep(reader, deeds, file);
      AppendedBefore(deeds, file);
      RestsSettleBefore(reader, HistoryOf(reader, deeds, file));
      HistoryIsLawful(reader, deeds[..|deeds| - 1], file);
      if IsVisitOf(deeds[|deeds| - 1], file) {
        FileSeenGrows(reader, deeds, file);
        VisitIsLawful(reader, deeds[..|deeds| - 1], deeds[|deeds| - 1].step.v);
      }
    }
  }

  lemma SameImport(reader: Reader, before: seq<Deed>, v: Visiting)
    requires v.from.At?
    requires StartedIn(reader, Visit(v.data, v.from.start, ScanOf(v)), TailsOf(reader.decode, Steps(before), v)) == v.from.context
    ensures
      var own := SeenFrom(reader, before, OfCache(Visited(v)), v.file);
      && (own.Imports() <==> Commits(v))
      && (Commits(v) ==> Read(reader, own.visit, own.tails) == ReadBy(reader, v))
  {}

  /** The history imports what the run imports. */
  lemma {:induction false} SameStore(reader: Reader, s: Db.Store, deeds: seq<Deed>, file: string)
    requires IsImport(reader.decode, deeds) && Appended(deeds, file) && RestsSettle(reader, HistoryOf(reader, deeds, file))
    ensures StoreOf(reader, s, deeds) == StoreAfter(reader, s, HistoryOf(reader, deeds, file))
  {
    if deeds != [] {
      HistoryStep(reader, deeds, file);
      AppendedBefore(deeds, file);
      RestsSettleBefore(reader, HistoryOf(reader, deeds, file));
      SameStore(reader, s, deeds[..|deeds| - 1], file);
      if IsVisitOf(deeds[|deeds| - 1], file) {
        FileSeenGrows(reader, deeds, file);
        VisitIsLawful(reader, deeds[..|deeds| - 1], deeds[|deeds| - 1].step.v);
        SameImport(reader, deeds[..|deeds| - 1], deeds[|deeds| - 1].step.v);
      }
      hide LawfulVisit, RestsSettle, Appended, IsImport, Steps, HistoryOf, StartedIn, Read, TailsOf, ScanOf;
      assert Db.ImportAll(StoreOf(reader, s, deeds[..|deeds| - 1]), []) == StoreOf(reader, s, deeds[..|deeds| - 1]);
    }
  }

  // ---------- The results ----------

  /** Over every import run, with whatever contexts the cache supplied: the store is that of
      importing each item of the file once, where it was first read, among the other imports;
      and these items are the distinct ones of the file's prefix up to the furthest cursor,
      followed by what an unterminated line there already meant. */
  lemma RunImportsOnce(reader: Reader, s: Db.Store, deeds: seq<Deed>, file: string)
    requires IsImport(reader.decode, deeds) && Appended(deeds, file) && RestsSettle(reader, HistoryOf(reader, deeds, file))
    requires SessionReplay.Chronological(Once(reader, HistoryOf(reader, deeds, file)))
    ensures StoreOf(reader, s, deeds) == Db.ImportAll(s, Once(reader, HistoryOf(reader, deeds, file)))
    ensures OwnOnce(reader, HistoryOf(reader, deeds, file)) == PrefixOnce(reader, HistoryOf(reader, deeds, file))
  {
    SameStore(reader, s, deeds, file);
    HistoryIsLawful(reader, deeds, file);
    ResumedIsOneShot(reader, s, HistoryOf(reader, deeds, file));
    OwnOnceIsPrefix(reader, HistoryOf(reader, deeds, file));
  }

  lemma {:induction false} OnlyOwn(reader: Reader, h: seq<Happening>)
    requires forall i :: 0 <= i < |h| && h[i].Other? ==> h[i].items == []
    ensures Once(reader, h) == OwnOnce(reader, h)
  {
    if h != [] {
      var init := h[..|h| - 1];
      assert forall i :: 0 <= i < |init| ==> init[i] == h[i];
      OnlyOwn(reader, init);
      NewExtends(reader, h);
    }
  }

  /** A file scanned to its end behind a newline, in however many pieces, leaves the store of
      reading it in one go. */
  lemma PiecesAreOneRead(reader: Reader, s: Db.Store, h: seq<Happening>)
    requires Lawful(reader, h) && RestsSettle(reader, h) && StoredCursor(h) == |FileSeen(h)|
    requires forall i :: 0 <= i < |h| && h[i].Other? ==> h[i].items == []
    requires SessionReplay.Chronological(Distinct(ItemsOf(reader, FileSeen(h))))
    ensures StoreAfter(reader, s, h) == Db.ImportAll(s, ItemsOf(reader, FileSeen(h)))
  {
    var items := ItemsOf(reader, FileSeen(h));
    OnlyOwn(reader, h);
    WholeFileOnce(reader, h);
    ResumedIsOneShot(reader, s, h);
    assert [] + Drop(Distinct(items), 0) == Distinct(items);
    RepeatsAreIdle(s, [], [], items);
  }
}
