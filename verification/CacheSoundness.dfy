/** What remembered contexts are worth, over every run of visits: exactly when an entry equals
    reading its prefix, and in what context a resumed scan reads its records. */
module CacheSoundness {
  import opened Options
  import opened Lists
  import opened Jsonl
  import opened CodexContext
  import opened CacheRuns

  predicate StoresFor(decode: Decoder, step: Step, file: string) {
    step.Visited? && step.v.file == file && Stores(decode, step.v)
  }

  // ---------- Where entries come from ----------

  /** An entry is the last one stored for its file. */
  lemma EntryStep(decode: Decoder, run: seq<Step>, e: Entry)
    requires run != [] && IsRun(decode, run) && e in EntriesAfter(decode, run)
    ensures
      if StoresFor(decode, run[|run| - 1], e.file) then e == NewEntry(decode, run[|run| - 1].v)
      else e in EntriesAfter(decode, run[..|run| - 1])
  {
    var init, last := run[..|run| - 1], run[|run| - 1];
    RunIsWellKept(decode, init);
    if last.Visited? {
      VisitIsWellKept(decode, EntriesAfter(decode, init), last.v);
    }
  }

  /** A context that is not reused is that of the prefix; a reused one is an entry's. */
  lemma StartContext(decode: Decoder, before: seq<Entry>, v: Visiting) returns (e: Option<Entry>)
    requires Opened(decode, before, v) && v.from.At? && v.from.start <= |v.data|
    ensures !v.from.reused ==> v.from.context == ContextOf(decode, v.data[..v.from.start])
    ensures v.from.reused ==>
              && e.Some? && e.value in before && e.value.file == v.file
              && e.value.hash == Digest(v.data[..v.from.start]) && e.value.context == v.from.context
  {
    e := None;
    assert v.data[..0] == [];
    var start := StartOf(v.checkpoint, v.stamp);
    if start > 0 && v.from.reused {
      var found :| found in before && Matches(found, v.file, v.checkpoint.value, v.node) && found.hash == Digest(v.data[..start])
                   && v.from == At(start, found.context, v.data[..start], true, true);
      e := Some(found);
    }
  }

  lemma RunLeft(decode: Decoder, run: seq<Step>, e: Entry)
    requires e in EntriesAfter(decode, run)
    ensures run != []
  {}

  lemma RunStep(decode: Decoder, run: seq<Step>)
    requires run != [] && IsRun(decode, run)
    ensures IsRun(decode, run[..|run| - 1]) && WellKept(EntriesAfter(decode, run[..|run| - 1]))
    ensures run[|run| - 1].Visited? ==> IsVisit(decode, EntriesAfter(decode, run[..|run| - 1]), run[|run| - 1].v)
    ensures run[|run| - 1].Visited? ==> run == run[..|run| - 1] + [Visited(run[|run| - 1].v)]
  {
    hide IsVisit, EntriesAfter, WellKept;
    RunIsWellKept(decode, run[..|run| - 1]);
  }

  lemma StoredStarts(decode: Decoder, before: seq<Entry>, v: Visiting)
    requires IsVisit(decode, before, v) && Stores(decode, v)
    ensures v.from.At? && v.from.start <= |v.data| && Opened(decode, before, v)
  {}

  /** All lines applied to the context remembered for a file since its prefix was last read. */
  function Applied(decode: Decoder, run: seq<Step>, file: string): seq<Line> {
    if run == [] then []
    else
      var before, last := Applied(decode, run[..|run| - 1], file), run[|run| - 1];
      if !StoresFor(decode, last, file) then before
      else (if last.v.from.reused then before else Kept(Take(last.v.data, last.v.from.start))) + LinesRead(last.v.scan)
  }

  lemma {:induction false} EntryIsApplied(decode: Decoder, run: seq<Step>, e: Entry)
    requires IsRun(decode, run) && e in EntriesAfter(decode, run)
    ensures e.context == Fold(decode, EMPTY, Applied(decode, run, e.file))
  {
    var init, last := run[..|run| - 1], run[|run| - 1];
    EntryStep(decode, run, e);
    if StoresFor(decode, last, e.file) {
      var v := last.v;
      var kept := StartContext(decode, EntriesAfter(decode, init), v);
      if v.from.reused {
        EntryIsApplied(decode, init, kept.value);
        FoldSplit(decode, EMPTY, Applied(decode, init, e.file), LinesRead(v.scan));
      } else {
        FoldSplit(decode, EMPTY, Kept(v.data[..v.from.start]), LinesRead(v.scan));
      }
    } else {
      EntryIsApplied(decode, init, e);
    }
  }

  /** Whatever the lines say, an entry equals reading its prefix if and only if the applied
      lines and the prefix's records last name the same model and session. */
  lemma EntryIsExactIff(decode: Decoder, run: seq<Step>, e: Entry)
    requires IsRun(decode, run) && e in EntriesAfter(decode, run)
    ensures e.context == ContextOf(decode, e.hash.bytes)
            <==> LastNameSame(decode, Applied(decode, run, e.file), Kept(e.hash.bytes))
  {
    EntryIsApplied(decode, run, e);
    SameContextIff(decode, Applied(decode, run, e.file), Kept(e.hash.bytes));
  }

  // ---------- Unterminated last lines ----------

  /** The unterminated last lines applied to the remembered context since a record followed them. */
  function Tails(decode: Decoder, run: seq<Step>, file: string): seq<Line> {
    if run == [] then []
    else
      var before, last := Tails(decode, run[..|run| - 1], file), run[|run| - 1];
      if !StoresFor(decode, last, file) then before
      else (if last.v.from.reused && last.v.scan.records == [] then before else []) + RestLines(last.v.scan.rest)
  }

  lemma TailsStay(decode: Decoder, run: seq<Step>, file: string)
    requires run != [] && !StoresFor(decode, run[|run| - 1], file)
    ensures Tails(decode, run, file) == Tails(decode, run[..|run| - 1], file)
  {}

  /** The step stored a context after the unterminated line `t` behind `prefix`. */
  ghost predicate LeavesTail(decode: Decoder, step: Step, file: string, prefix: seq<Byte>, t: Line) {
    && StoresFor(decode, step, file) && step.v.scan.rest == Some(t)
    && step.v.scan.safeOffset == |prefix| && Take(step.v.data, |prefix|) == prefix
  }

  ghost predicate SeenTail(decode: Decoder, run: seq<Step>, file: string, prefix: seq<Byte>, t: Line) {
    exists i :: 0 <= i < |run| && LeavesTail(decode, run[i], file, prefix, t)
  }

  lemma SeenEarlier(decode: Decoder, run: seq<Step>, file: string, prefix: seq<Byte>, t: Line)
    requires run != [] && SeenTail(decode, run[..|run| - 1], file, prefix, t)
    ensures SeenTail(decode, run, file, prefix, t)
  {
    var init := run[..|run| - 1];
    var i :| 0 <= i < |init| && LeavesTail(decode, init[i], file, prefix, t);
    assert run[i] == init[i];
  }

  lemma TailOfVisit(decode: Decoder, before: seq<Entry>, v: Visiting)
    requires WellKept(before) && IsVisit(decode, before, v) && Stores(decode, v)
    ensures NewEntry(decode, v).hash.bytes == v.data[..v.scan.safeOffset]
    ensures v.scan.rest.Some? ==>
              && LeavesTail(decode, Visited(v), v.file, v.data[..v.scan.safeOffset], v.scan.rest.value)
              && SplitOf(v.data[..v.scan.safeOffset]).tail == []
  {
    StoredPrefix(decode, before, v);
    if v.scan.rest.Some? {
      RestStartsLine(v.data, v.scan.safeOffset, v.scan.rest.value);
    }
  }

  /** The tails of an entry stood behind its prefix, at the start of a line. */
  ghost predicate TailsStand(decode: Decoder, run: seq<Step>, file: string, prefix: seq<Byte>, tails: seq<Line>) {
    && (forall t :: t in tails ==> SeenTail(decode, run, file, prefix, t))
    && (tails != [] ==> SplitOf(prefix).tail == [])
  }

  lemma TailsStandLonger(decode: Decoder, run: seq<Step>, file: string, prefix: seq<Byte>, tails: seq<Line>)
    requires run != [] && TailsStand(decode, run[..|run| - 1], file, prefix, tails)
    ensures TailsStand(decode, run, file, prefix, tails)
  {
    forall t | t in tails
      ensures SeenTail(decode, run, file, prefix, t)
    {
      SeenEarlier(decode, run, file, prefix, t);
    }
  }

  lemma {:induction false} EntryTailsStand(decode: Decoder, run: seq<Step>, e: Entry)
    requires IsRun(decode, run) && e in EntriesAfter(decode, run)
    ensures TailsStand(decode, run, e.file, e.hash.bytes, Tails(decode, run, e.file))
    decreases |run|, 0
  {
    RunLeft(decode, run, e);
    hide EntriesAfter, IsRun, IsVisit, Opened, TailsStand, Tails, Stores, NewEntry, WellKept;
    var init, last := run[..|run| - 1], run[|run| - 1];
    RunStep(decode, run);
    EntryStep(decode, run, e);
    if StoresFor(decode, last, e.file) {
      StoredStarts(decode, EntriesAfter(decode, init), last.v);
      if last.v.from.reused {
        ReusedTailsStand(decode, init, last.v);
      }
      StoredTailsStand(decode, init, last.v);
    } else {
      EntryTailsStand(decode, init, e);
      TailsStay(decode, run, e.file);
      TailsStandLonger(decode, run, e.file, e.hash.bytes, Tails(decode, init, e.file));
    }
  }

  lemma {:induction false} ReusedTailsStand(decode: Decoder, run: seq<Step>, v: Visiting)
    requires IsRun(decode, run) && Opened(decode, EntriesAfter(decode, run), v)
    requires v.from.At? && v.from.start <= |v.data| && v.from.reused
    ensures TailsStand(decode, run, v.file, v.data[..v.from.start], Tails(decode, run, v.file))
    decreases |run|, 1
  {
    var kept := StartContext(decode, EntriesAfter(decode, run), v);
    EntryTailsStand(decode, run, kept.value);
  }

  lemma StoredTailsStand(decode: Decoder, run: seq<Step>, v: Visiting)
    requires IsVisit(decode, EntriesAfter(decode, run), v) && WellKept(EntriesAfter(decode, run)) && Stores(decode, v)
    requires v.from.reused && v.scan.records == [] ==>
               TailsStand(decode, run, v.file, v.data[..v.from.start], Tails(decode, run, v.file))
    ensures TailsStand(decode, run + [Visited(v)], v.file, NewEntry(decode, v).hash.bytes,
                       Tails(decode, run + [Visited(v)], v.file))
  {
    var all, prefix := run + [Visited(v)], v.data[..v.scan.safeOffset];
    assert all[..|all| - 1] == run && all[|run|] == Visited(v);
    TailOfVisit(decode, EntriesAfter(decode, run), v);
    if v.from.reused && v.scan.records == [] {
      assert v.data[v.from.start..v.scan.safeOffset] == [];
      TailsStandLonger(decode, all, v.file, prefix, Tails(decode, run, v.file));
    }
  }

  // ---------- Lines that keep their meaning ----------

  /** Once the line at `cursor` is terminated, it means what `t` meant, if `t` meant anything. */
  ghost predicate SettlesAs(decode: Decoder, t: Line, data: seq<Byte>, cursor: nat) {
    decode(t).Ordinary?
    || forall k :: IsLineAt(data, cursor, k) ==> k - cursor <= MAX_RECORD_BYTES && decode(data[cursor..k]) == decode(t)
  }

  /** Behind the same prefix, the line the earlier visit left unterminated keeps its meaning. */
  ghost predicate KeepsMeaning(decode: Decoder, earlier: Visiting, later: Visiting) {
    earlier.scan.rest.Some? && Take(later.data, earlier.scan.safeOffset) == Take(earlier.data, earlier.scan.safeOffset)
    ==> SettlesAs(decode, earlier.scan.rest.value, later.data, earlier.scan.safeOffset)
  }

  /** The lines that earlier stored scans of the file left unterminated mean the same to `v`. */
  ghost predicate KeepsEarlier(decode: Decoder, run: seq<Step>, v: Visiting) {
    forall i :: 0 <= i < |run| && StoresFor(decode, run[i], v.file) ==> KeepsMeaning(decode, run[i].v, v)
  }

  /** The file's writer only ever completes a line that was already a context record. */
  ghost predicate LinesKeepMeaning(decode: Decoder, run: seq<Step>, file: string) {
    forall i, j :: 0 <= i < j < |run| && StoresFor(decode, run[i], file) && StoresFor(decode, run[j], file)
      ==> KeepsMeaning(decode, run[i].v, run[j].v)
  }

  lemma LastKeeps(decode: Decoder, run: seq<Step>, file: string)
    requires run != [] && LinesKeepMeaning(decode, run, file) && StoresFor(decode, run[|run| - 1], file)
    ensures KeepsEarlier(decode, run[..|run| - 1], run[|run| - 1].v)
  {
    var init := run[..|run| - 1];
    assert forall i :: 0 <= i < |init| ==> init[i] == run[i];
  }

  /** The first record behind a prefix repeats the tails that stood there. */
  lemma TailsRepeat(decode: Decoder, run: seq<Step>, v: Visiting, tails: seq<Line>)
    requires KeepsEarlier(decode, run, v)
    requires v.from.At? && v.from.start <= |v.data| && ScanOutcome(v.data, v.from.start, v.scan) && v.scan.records != []
    requires TailsStand(decode, run, v.file, v.data[..v.from.start], tails)
    ensures Repeats(decode, tails, decode(v.scan.records[0]))
  {
    hide Stores, SplitOf, Kept, SafeCursor, IsRest;
    if tails != [] {
      var start := v.from.start;
      var k := FirstRecord(v.data, start, v.scan.safeOffset, v.scan.records);
      forall t | t in tails
        ensures decode(t).Ordinary? || decode(t) == decode(v.scan.records[0])
      {
        var i :| 0 <= i < |run| && LeavesTail(decode, run[i], v.file, v.data[..start], t);
        assert KeepsMeaning(decode, run[i].v, v);
        assert IsLineAt(v.data, start, k);
      }
    }
  }

  lemma ShorterKeepsMeaning(decode: Decoder, run: seq<Step>, file: string)
    requires run != [] && LinesKeepMeaning(decode, run, file)
    ensures LinesKeepMeaning(decode, run[..|run| - 1], file)
  {
    var init := run[..|run| - 1];
    assert forall i :: 0 <= i < |init| ==> init[i] == run[i];
  }

  /** An entry is its prefix's context with the tails applied. */
  lemma {:induction false} EntryIsTails(decode: Decoder, run: seq<Step>, e: Entry)
    requires IsRun(decode, run) && e in EntriesAfter(decode, run) && LinesKeepMeaning(decode, run, e.file)
    ensures e.context == Fold(decode, ContextOf(decode, e.hash.bytes), Tails(decode, run, e.file))
    decreases |run|, 0
  {
    RunLeft(decode, run, e);
    hide EntriesAfter, IsRun, IsVisit, Opened, LinesKeepMeaning, KeepsEarlier, TailsStand, Tails, Fold, ContextOf, Stores, NewEntry, WellKept;
    var init, last := run[..|run| - 1], run[|run| - 1];
    RunStep(decode, run);
    EntryStep(decode, run, e);
    ShorterKeepsMeaning(decode, run, e.file);
    if StoresFor(decode, last, e.file) {
      StoredStarts(decode, EntriesAfter(decode, init), last.v);
      var tails := VisitStartsWith(decode, init, last.v);
      LastKeeps(decode, run, e.file);
      StoredEntryIsTails(decode, init, last.v, tails);
    } else {
      EntryIsTails(decode, init, e);
      TailsStay(decode, run, e.file);
    }
  }

  /** A visit starts in its prefix's context, with the tails applied if it reuses an entry. */
  lemma {:induction false} VisitStartsWith(decode: Decoder, run: seq<Step>, v: Visiting) returns (tails: seq<Line>)
    requires IsRun(decode, run) && IsVisit(decode, EntriesAfter(decode, run), v) && v.from.At?
    requires LinesKeepMeaning(decode, run, v.file)
    ensures tails == if v.from.reused then Tails(decode, run, v.file) else []
    ensures v.from.context == Fold(decode, ContextOf(decode, v.data[..v.from.start]), tails)
    ensures TailsStand(decode, run, v.file, v.data[..v.from.start], tails)
    decreases |run|, 1
  {
    tails := if v.from.reused then Tails(decode, run, v.file) else [];
    var kept := StartContext(decode, EntriesAfter(decode, run), v);
    if v.from.reused {
      EntryIsTails(decode, run, kept.value);
      ReusedTailsStand(decode, run, v);
    }
  }

  lemma StoredEntryIsTails(decode: Decoder, run: seq<Step>, v: Visiting, tails: seq<Line>)
    requires IsVisit(decode, EntriesAfter(decode, run), v) && WellKept(EntriesAfter(decode, run)) && Stores(decode, v)
    requires KeepsEarlier(decode, run, v)
    requires tails == if v.from.reused then Tails(decode, run, v.file) else []
    requires v.from.context == Fold(decode, ContextOf(decode, v.data[..v.from.start]), tails)
    requires TailsStand(decode, run, v.file, v.data[..v.from.start], tails)
    ensures NewEntry(decode, v).context
            == Fold(decode, ContextOf(decode, NewEntry(decode, v).hash.bytes), Tails(decode, run + [Visited(v)], v.file))
  {
    var all := run + [Visited(v)];
    assert all[..|all| - 1] == run && all[|run|] == Visited(v);
    StoredPrefix(decode, EntriesAfter(decode, run), v);
    if v.scan.records != [] {
      TailsRepeat(decode, run, v, tails);
    }
    StoredIsTails(decode, v, tails);
  }

  lemma StoredIsTails(decode: Decoder, v: Visiting, tails: seq<Line>)
    requires v.from.At? && v.from.start <= |v.data| && ScanOutcome(v.data, v.from.start, v.scan) && !v.scan.skipped
    requires v.from.context == Fold(decode, ContextOf(decode, v.data[..v.from.start]), tails)
    requires v.scan.records != [] ==> Repeats(decode, tails, decode(v.scan.records[0]))
    ensures Fold(decode, v.from.context, LinesRead(v.scan))
            == Fold(decode, ContextOf(decode, v.data[..v.scan.safeOffset]),
                    (if v.scan.records == [] then tails else []) + RestLines(v.scan.rest))
  {
    var prefix, rest := ContextOf(decode, v.data[..v.from.start]), RestLines(v.scan.rest);
    FoldSplit(decode, v.from.context, v.scan.records, rest);
    FoldSplit(decode, EMPTY, Kept(v.data[..v.from.start]), v.scan.records);
    if v.scan.records == [] {
      assert v.data[v.from.start..v.scan.safeOffset] == [];
      FoldSplit(decode, prefix, tails, rest);
    } else {
      FirstRecordHeals(decode, prefix, tails, v.scan.records);
      assert [] + rest == rest;
    }
  }

  // ---------- The results ----------

  /** An entry equals reading its prefix if and only if the unterminated last lines stored
      with it say nothing new about model or session. */
  lemma EntryIsFoldIff(decode: Decoder, run: seq<Step>, e: Entry)
    requires IsRun(decode, run) && e in EntriesAfter(decode, run) && LinesKeepMeaning(decode, run, e.file)
    ensures e.context == ContextOf(decode, e.hash.bytes)
            <==> !SaysNew(decode, Kept(e.hash.bytes), Tails(decode, run, e.file))
  {
    EntryIsTails(decode, run, e);
    LaterLinesMatter(decode, Kept(e.hash.bytes), Tails(decode, run, e.file));
  }

  /** A visit starts as if it had read the file from its first byte, unless it reuses an entry
      whose tails say something new; and only then not. */
  lemma ResumeIsRereadIff(decode: Decoder, run: seq<Step>, v: Visiting)
    requires IsRun(decode, run) && IsVisit(decode, EntriesAfter(decode, run), v) && v.from.At?
    requires LinesKeepMeaning(decode, run, v.file)
    ensures v.from.context == ContextOf(decode, v.data[..v.from.start])
            <==> !(v.from.reused && SaysNew(decode, Kept(v.data[..v.from.start]), Tails(decode, run, v.file)))
  {
    var tails := VisitStartsWith(decode, run, v);
    LaterLinesMatter(decode, Kept(v.data[..v.from.start]), tails);
    if !v.from.reused {
      assert v.from.context == ContextOf(decode, v.data[..v.from.start]);
    }
  }

  /** The record behind the first `n` ones is read in the context it has in the file. */
  predicate ReadInContext(decode: Decoder, v: Visiting, n: nat)
    requires v.from.At? && v.from.start <= |v.data| && n <= |v.scan.records|
  {
    Fold(decode, v.from.context, v.scan.records[..n])
    == Fold(decode, EMPTY, Kept(v.data[..v.from.start]) + v.scan.records[..n])
  }

  /** However contexts are remembered, every terminated line that is not itself a context
      record is read in the model and session that the lines before it name. */
  lemma UsageIsReadInContext(decode: Decoder, run: seq<Step>, v: Visiting, n: nat)
    requires IsRun(decode, run) && IsVisit(decode, EntriesAfter(decode, run), v) && v.from.At?
    requires LinesKeepMeaning(decode, run, v.file) && KeepsEarlier(decode, run, v)
    requires ScanOutcome(v.data, v.from.start, v.scan)
    requires n < |v.scan.records| && decode(v.scan.records[n]).Ordinary?
    ensures ReadInContext(decode, v, n)
  {
    var tails := VisitStartsWith(decode, run, v);
    TailsRepeat(decode, run, v, tails);
    var prefix, read := ContextOf(decode, v.data[..v.from.start]), v.scan.records[..n];
    if n == 0 {
      RepeatsHeal(decode, prefix, tails, decode(v.scan.records[0]));
    } else {
      FirstRecordHeals(decode, prefix, tails, read);
    }
    FoldSplit(decode, EMPTY, Kept(v.data[..v.from.start]), read);
  }

  /** Every stored scan of the file ended at a newline. */
  ghost predicate EndsAtNewlines(decode: Decoder, run: seq<Step>, file: string) {
    forall i :: 0 <= i < |run| && StoresFor(decode, run[i], file) ==> run[i].v.scan.rest.None?
  }

  lemma {:induction false} NoTails(decode: Decoder, run: seq<Step>, file: string)
    requires EndsAtNewlines(decode, run, file)
    ensures Tails(decode, run, file) == []
  {
    if run != [] {
      var init := run[..|run| - 1];
      assert forall i :: 0 <= i < |init| ==> init[i] == run[i];
      NoTails(decode, init, file);
    }
  }

  /** A file whose stored scans all ended at a newline is always resumed as if it had been
      read from its first byte, whatever its lines mean and whatever happens to other files. */
  lemma NewlineEndedIsExact(decode: Decoder, run: seq<Step>, file: string)
    requires IsRun(decode, run) && EndsAtNewlines(decode, run, file)
    ensures forall e :: e in EntriesAfter(decode, run) && e.file == file ==> e.context == ContextOf(decode, e.hash.bytes)
    ensures forall v: Visiting :: v.file == file && IsVisit(decode, EntriesAfter(decode, run), v) && v.from.At?
              ==> v.from.context == ContextOf(decode, v.data[..v.from.start])
  {
    NoTails(decode, run, file);
    forall e | e in EntriesAfter(decode, run) && e.file == file
      ensures e.context == ContextOf(decode, e.hash.bytes)
    {
      EntryIsTails(decode, run, e);
    }
    forall v: Visiting | v.file == file && IsVisit(decode, EntriesAfter(decode, run), v) && v.from.At?
      ensures v.from.context == ContextOf(decode, v.data[..v.from.start])
    {
      var tails := VisitStartsWith(decode, run, v);
    }
  }
}
