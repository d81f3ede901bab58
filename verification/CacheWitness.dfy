/** Concrete runs: a remembered context is found again, and an unterminated context record
    makes a resumed scan read on in a context that its file does not yet name. */
module CacheWitness {
  import opened Options
  import opened Jsonl
  import opened CodexContext
  import opened CacheRuns
  import opened CacheSoundness

  /** An entry about the file's recorded state and prefix is used whenever the file is not
      replaced; the only other outcome is that the visit gives up. */
  lemma MatchingEntryIsUsed(decode: Decoder, run: seq<Step>, e: Entry, v: Visiting)
    requires IsRun(decode, run) && IsVisit(decode, EntriesAfter(decode, run), v)
    requires e in EntriesAfter(decode, run) && e.prefixOffset > 0
    requires v.checkpoint.Some? && !IsReplaced(v.checkpoint, v.stamp) && Matches(e, v.file, v.checkpoint.value, v.node)
    requires e.hash.bytes <= v.data
    ensures v.from.Abandoned? || v.from == At(e.prefixOffset, e.context, e.hash.bytes, true, true)
  {
    RunIsWellKept(decode, run);
    var entries := EntriesAfter(decode, run);
    assert SafeCursor(e.hash.bytes);
    assert StartOf(v.checkpoint, v.stamp) == e.prefixOffset;
    assert v.data[..e.prefixOffset] == e.hash.bytes;
    if v.from.At? {
      assert v.from.reused;
      var other :| other in entries && Matches(other, v.file, v.checkpoint.value, v.node)
                   && v.from == At(e.prefixOffset, other.context, v.data[..e.prefixOffset], true, true);
      SameFileSameEntry(entries, e, other);
    }
  }

  lemma SameFileSameEntry(entries: seq<Entry>, e: Entry, other: Entry)
    requires OnePerFile(entries) && e in entries && other in entries && e.file == other.file
    ensures e == other
  {
    var i :| 0 <= i < |entries| && entries[i] == e;
    var j :| 0 <= j < |entries| && entries[j] == other;
    assert i == j;
  }

  /** What a committed scan stored is what the next visit of the same, grown file starts with. */
  lemma NextVisitResumes(decode: Decoder, run: seq<Step>, first: Visiting, next: Visiting)
    requires IsRun(decode, run) && IsVisit(decode, EntriesAfter(decode, run), first)
    requires Stores(decode, first) && first.scan.safeOffset > 0
    requires IsVisit(decode, EntriesLeft(decode, first), next)
    requires next.file == first.file && next.node == first.node && first.data <= next.data
    requires next.checkpoint == Some(Checkpoint(first.scan.safeOffset, first.stamp))
    requires !IsReplaced(next.checkpoint, next.stamp)
    ensures || next.from.Abandoned?
            || next.from == At(first.scan.safeOffset, Fold(decode, first.from.context, LinesRead(first.scan)),
                               next.data[..first.scan.safeOffset], true, true)
  {
    var all := run + [Visited(first)];
    assert all[..|all| - 1] == run && all[|run|] == Visited(first);
    RunIsWellKept(decode, run);
    StoredPrefix(decode, EntriesAfter(decode, run), first);
    VisitIsWellKept(decode, EntriesAfter(decode, run), first);
    assert first.data[..first.scan.safeOffset] == next.data[..first.scan.safeOffset];
    MatchingEntryIsUsed(decode, all, NewEntry(decode, first), next);
  }

  lemma OneMoreVisit(decode: Decoder, run: seq<Step>, v: Visiting)
    requires IsRun(decode, run) && IsVisit(decode, EntriesAfter(decode, run), v) && Stores(decode, v)
    ensures IsRun(decode, run + [Visited(v)]) && NewEntry(decode, v) in EntriesAfter(decode, run + [Visited(v)])
    ensures v.scan.records != [] ==> Tails(decode, run + [Visited(v)], v.file) == RestLines(v.scan.rest)
  {
    var all := run + [Visited(v)];
    assert all[..|all| - 1] == run && all[|run|] == Visited(v);
    RunIsWellKept(decode, run);
    VisitIsWellKept(decode, EntriesAfter(decode, run), v);
  }

  // ---------- Scans of two lines ----------

  lemma OneRecord(a: Line)
    requires IsRecord(a) && |a| <= MAX_RECORD_BYTES
    ensures SplitOf(a) == Split([a], []) && Kept(a) == [a] && Flatten([a]) == a
  {
    assert [a][..0] == [];
    assert [] + a == a;
    SplitExtend([], a);
    KeptExtend([], a);
  }

  lemma Halves(a: Line, b: Line)
    ensures (a + b)[..0] == [] && (a + b)[0..|a|] == a && (a + b)[..|a|] == a && (a + b)[|a|..] == b && (a + b)[|a|..|a|] == []
    ensures (a + b)[|a|..|a + b|] == b && (a + b)[..|a + b|] == a + b
  {}

  lemma RestScanned(a: Line, b: Line)
    requires IsRecord(a) && |a| <= MAX_RECORD_BYTES && b != [] && |b| <= MAX_RECORD_BYTES && Unbroken(b, 0, |b|)
    ensures ScanOutcome(a + b, |a|, Scan([], Some(b), |a|, false, Finished))
    ensures SplitOf(a + b).tail == b && Kept(a + b) == [a]
  {
    OneRecord(a);
    Halves(a, b);
    KeptExtend(a, b);
    assert [] + b == b;
    assert [a] + [] == [a];
  }

  lemma BothScanned(a: Line, b: Line)
    requires IsRecord(a) && |a| <= MAX_RECORD_BYTES && b != [] && |b| <= MAX_RECORD_BYTES && Unbroken(b, 0, |b|)
    ensures ScanOutcome(a + b, 0, Scan([a], Some(b), |a|, false, Finished))
  {
    hide Flatten;
    assert Kept([]) == [];
    OneRecord(a);
    Halves(a, b);
    RestScanned(a, b);
    assert [] + [a] == [a];
  }

  lemma RecordScanned(a: Line, b: Line)
    requires IsRecord(a) && |a| <= MAX_RECORD_BYTES && IsRecord(b) && |b| <= MAX_RECORD_BYTES
    ensures ScanOutcome(a + b, |a|, Scan([b], None, |a + b|, false, Finished))
    ensures Kept(a + b) == [a] + [b]
  {
    OneRecord(a);
    OneRecord(b);
    Halves(a, b);
    KeptExtend(a, b);
    assert [] + b == b;
  }

  // ---------- A context ahead of its file ----------

  const NAMES_A: Line := [65, 10]
  const NAMES_B: Line := [66]
  const SESSION := SessionInfo("s", "/w", None, false)

  /** One line names a session and model "a", the other, which lacks its newline, model "b". */
  function Sample(line: Line): Meta {
    if line == NAMES_A then SessionMeta(SESSION, "a") else if line == NAMES_B then TurnContext("b") else Ordinary
  }

  const CONTEXT_A := Context(Some("a"), Some(SESSION))
  const CONTEXT_B := Context(Some("b"), Some(SESSION))
  const NODE := Node(1, 1)

  /** A first scan of the two lines. */
  const FIRST := Visiting("f", NAMES_A + NAMES_B, None, Stamp(3, "t"), NODE, true, [], FRESH,
                          Scan([NAMES_A], Some(NAMES_B), 2, false, Finished))

  const REMEMBERED := Entry("f", 2, Stamp(3, "t"), NODE, Digest(NAMES_A), CONTEXT_B)

  /** A later scan after `more` was appended, which found the given records and rest. */
  function Later(more: seq<Byte>, scan: Scan): Visiting {
    Visiting("f", NAMES_A + NAMES_B + more, Some(Checkpoint(2, Stamp(3, "t"))), Stamp(3 + |more|, "t"), NODE, true,
             [REMEMBERED], At(2, CONTEXT_B, NAMES_A, true, true), scan)
  }

  lemma ContextsOfSample()
    ensures Fold(Sample, EMPTY, [NAMES_A]) == CONTEXT_A && Fold(Sample, EMPTY, [NAMES_A] + [NAMES_B]) == CONTEXT_B
    ensures ContextOf(Sample, NAMES_A) == CONTEXT_A && SafeCursor(NAMES_A)
  {
    FoldOne(Sample, EMPTY, NAMES_A);
    FoldSplit(Sample, EMPTY, [NAMES_A], [NAMES_B]);
    FoldOne(Sample, CONTEXT_A, NAMES_B);
    OneRecord(NAMES_A);
  }

  lemma FirstScans()
    ensures ScanOutcome(FIRST.data, 0, FIRST.scan)
  {
    BothScanned(NAMES_A, NAMES_B);
  }

  lemma FirstIsVisit()
    ensures IsVisit(Sample, [], FIRST)
  {
    FirstScans();
    assert FIRST.data[..0] == [];
  }

  lemma FirstLearns()
    ensures Fold(Sample, EMPTY, LinesRead(FIRST.scan)) == CONTEXT_B && HashedAfter(FIRST) == NAMES_A
  {
    ContextsOfSample();
    OneRecord(NAMES_A);
    assert [] + NAMES_A == NAMES_A;
  }

  lemma FirstEntry(e: Entry)
    ensures Remembered([], e) == [e]
  {
    assert [e] + [] == [e];
  }

  lemma FirstStores()
    ensures Stores(Sample, FIRST) && EntriesLeft(Sample, FIRST) == [REMEMBERED]
  {
    FirstLearns();
    FirstEntry(REMEMBERED);
  }

  lemma LaterIsVisit(more: seq<Byte>, scan: Scan)
    requires more != [] && ScanOutcome(NAMES_A + NAMES_B + more, 2, scan) && !scan.skipped
    ensures IsVisit(Sample, [REMEMBERED], Later(more, scan))
  {
    var v := Later(more, scan);
    assert v.data[..2] == NAMES_A;
    assert REMEMBERED in [REMEMBERED];
    assert Matches(REMEMBERED, v.file, v.checkpoint.value, v.node);
  }

  lemma FirstIsRun()
    ensures IsRun(Sample, [Visited(FIRST)]) && EntriesAfter(Sample, [Visited(FIRST)]) == [REMEMBERED]
  {
    FirstIsVisit();
    FirstStores();
    assert [Visited(FIRST)][..0] == [];
  }

  // Without the newline the second line goes on, unterminated.

  const AHEAD := Later([67], Scan([], Some([66, 67]), 2, false, Finished))

  lemma AheadIsVisit()
    ensures IsVisit(Sample, [REMEMBERED], AHEAD)
  {
    var rest: Line := [66, 67];
    assert NAMES_A + NAMES_B + [67] == NAMES_A + rest;
    RestScanned(NAMES_A, rest);
    LaterIsVisit([67], AHEAD.scan);
  }

  lemma NoLineAhead(k: int)
    ensures !IsLineAt(AHEAD.data, 2, k)
  {
    if 2 < k <= |AHEAD.data| {
      assert AHEAD.data[2..k][k - 3] == AHEAD.data[k - 1];
    }
  }

  lemma AheadKeepsMeaning()
    ensures LinesKeepMeaning(Sample, [Visited(FIRST)], "f") && KeepsEarlier(Sample, [Visited(FIRST)], AHEAD)
  {
    forall k
      ensures !IsLineAt(AHEAD.data, 2, k)
    {
      NoLineAhead(k);
    }
  }

  /** A file of two lines, the second of which still lacks its newline when it is first read
      and grows without one, is resumed in a context that its prefix does not have. */
  lemma ResumesAhead() returns (run: seq<Step>, v: Visiting)
    ensures IsRun(Sample, run) && IsVisit(Sample, EntriesAfter(Sample, run), v)
    ensures LinesKeepMeaning(Sample, run, v.file) && KeepsEarlier(Sample, run, v)
    ensures v.from.At? && 0 < v.from.start <= |v.data| && v.from.context != ContextOf(Sample, v.data[..v.from.start])
  {
    hide IsVisit, Opened, Resumed, LinesKeepMeaning, KeepsEarlier, ContextOf, Fold, Sample;
    run, v := [Visited(FIRST)], AHEAD;
    FirstIsRun();
    AheadIsVisit();
    AheadKeepsMeaning();
    ContextsOfSample();
    assert v.data[..2] == NAMES_A;
  }

  // The second line is completed to one that means nothing.

  const GARBLED: Line := [66, 67, 10]
  const COMPLETED := Later([67, 10], Scan([GARBLED], None, 5, false, Finished))

  lemma CompletedScans()
    ensures ScanOutcome(COMPLETED.data, 2, COMPLETED.scan)
  {
    assert COMPLETED.data == NAMES_A + GARBLED;
    RecordScanned(NAMES_A, GARBLED);
  }

  lemma CompletedContexts()
    ensures Fold(Sample, CONTEXT_B, LinesRead(COMPLETED.scan)) == CONTEXT_B
    ensures ContextOf(Sample, COMPLETED.data) == CONTEXT_A
  {
    assert COMPLETED.data == NAMES_A + GARBLED;
    RecordScanned(NAMES_A, GARBLED);
    ContextsOfSample();
    FoldOne(Sample, CONTEXT_B, GARBLED);
    assert [GARBLED] + [] == [GARBLED];
    assert [NAMES_A] + [GARBLED] == [NAMES_A, GARBLED];
    FoldSplit(Sample, EMPTY, [NAMES_A], [GARBLED]);
    FoldOne(Sample, CONTEXT_A, GARBLED);
  }

  lemma CompletedStores()
    ensures Stores(Sample, COMPLETED) && NewEntry(Sample, COMPLETED).hash == Digest(COMPLETED.data)
  {
    hide Fold, SplitOf, Small, Kept, ContextOf;
    CompletedContexts();
    OneRecord(GARBLED);
    assert COMPLETED.data == NAMES_A + GARBLED;
  }

  /** If the line changes its meaning when it is completed, even an entry whose scan ended at
      a newline differs from its prefix. */
  lemma MeaningMatters() returns (run: seq<Step>, e: Entry)
    ensures IsRun(Sample, run) && e in EntriesAfter(Sample, run)
    ensures Tails(Sample, run, e.file) == [] && e.context != ContextOf(Sample, e.hash.bytes)
  {
    run, e := [Visited(FIRST)] + [Visited(COMPLETED)], NewEntry(Sample, COMPLETED);
    FirstIsRun();
    CompletedScans();
    LaterIsVisit([67, 10], COMPLETED.scan);
    CompletedStores();
    CompletedContexts();
    OneMoreVisit(Sample, [Visited(FIRST)], COMPLETED);
  }
}
