/** Runs of file visits over a small cache of contexts: what an entry holds, when it equals
    reading its file's prefix, and what a visit resumes with. */
module CacheRuns {
  import opened Options
  import opened Lists
  import opened Jsonl
  import opened CodexContext

  /** A collision-free digest, standing for SHA-256. */
  datatype Digest = Digest(bytes: seq<Byte>)

  datatype Stamp = Stamp(size: int, modified: string)

  datatype Node = Node(device: nat, inode: nat)

  datatype Checkpoint = Checkpoint(offset: nat, stamp: Stamp)

  datatype Entry = Entry(file: string, prefixOffset: nat, stamp: Stamp, node: Node, hash: Digest, context: Context)

  const MAX_CONTEXTS := 16

  // ---------- The cache ----------

  ghost predicate OnePerFile(entries: seq<Entry>) {
    forall i, j :: 0 <= i < j < |entries| ==> entries[i].file != entries[j].file
  }

  function WithoutFile(entries: seq<Entry>, file: string): (kept: seq<Entry>)
    ensures |kept| <= |entries|
    ensures forall e :: e in kept <==> e in entries && e.file != file
    ensures OnePerFile(entries) ==> OnePerFile(kept)
  {
    if entries == [] then []
    else if entries[0].file == file then WithoutFile(entries[1..], file)
    else [entries[0]] + WithoutFile(entries[1..], file)
  }

  /** The entries of files that are still there. */
  function Discovered(entries: seq<Entry>, files: set<string>): (kept: seq<Entry>)
    ensures |kept| <= |entries|
    ensures forall e :: e in kept <==> e in entries && e.file in files
    ensures OnePerFile(entries) ==> OnePerFile(kept)
  {
    if entries == [] then []
    else if entries[0].file in files then [entries[0]] + Discovered(entries[1..], files)
    else Discovered(entries[1..], files)
  }

  lemma DiscoveredNone(entries: seq<Entry>)
    ensures Discovered(entries, {}) == []
  {}

  /** The newest entry comes first; the oldest ones fall out. */
  function Remembered(entries: seq<Entry>, e: Entry): seq<Entry> {
    Take([e] + WithoutFile(entries, e.file), MAX_CONTEXTS)
  }

  predicate Matches(e: Entry, file: string, checkpoint: Checkpoint, node: Node) {
    && e.file == file && e.prefixOffset == checkpoint.offset && e.stamp == checkpoint.stamp && e.node == node
    && e.context != EMPTY
  }

  // ---------- One visit ----------

  /** How a visit stands before it scans: abandoned, or at `start` with `context`.
      `hashed` is what went into the running digest, `reused` whether the context is a
      remembered one. */
  datatype Standing =
    | Abandoned
    | At(start: nat, context: Context, hashed: seq<Byte>, cacheable: bool, reused: bool)

  /** At the start of the file, knowing nothing. */
  const FRESH := At(0, EMPTY, [], true, false)

  /** One visit of a file: what it found, whether its rows were committed, the entries that
      looking for a context left, where and with what it started, and what it scanned. */
  datatype Visiting = Visiting(file: string, data: seq<Byte>, checkpoint: Option<Checkpoint>, stamp: Stamp, node: Node,
                               committed: bool, consulted: seq<Entry>, from: Standing, scan: Scan)

  /** The file shrank, or changed without growing. */
  predicate IsReplaced(checkpoint: Option<Checkpoint>, stamp: Stamp) {
    && checkpoint.Some?
    && (|| stamp.size < checkpoint.value.stamp.size
        || (stamp.size == checkpoint.value.stamp.size && stamp.modified != checkpoint.value.stamp.modified))
  }

  function StartOf(checkpoint: Option<Checkpoint>, stamp: Stamp): nat {
    if checkpoint.None? || IsReplaced(checkpoint, stamp) || checkpoint.value.offset > stamp.size then 0
    else checkpoint.value.offset
  }

  /** The context was read from the file's records before `start`, and so was the digest: it is
      the prefix's if it is as long or if `start` is the start of a line, unless something had
      to be passed over. */
  ghost predicate IsReread(decode: Decoder, data: seq<Byte>, start: nat, s: Standing) {
    && s.At? && s.start == start <= |data| && !s.reused
    && s.context == ContextOf(decode, data[..start])
    && (s.cacheable && (|s.hashed| == start || SplitOf(data[..start]).tail == []) ==>
          s.hashed == data[..start] && SafeCursor(data[..start]))
    && (!s.cacheable ==> PassesOver(data, 0))
  }

  /** A remembered context is used only for the same file in its recorded state, when its
      prefix still has the remembered digest, and is then preferred to reading again. A
      prefix that yields no context is not resumed behind. */
  ghost predicate Resumed(decode: Decoder, before: seq<Entry>, consulted: seq<Entry>, file: string, data: seq<Byte>,
                          checkpoint: Checkpoint, node: Node, from: Standing)
  {
    && checkpoint.offset <= |data|
    && var prefix := data[..checkpoint.offset];
    && (from.Abandoned? ==> consulted == before || consulted == WithoutFile(before, file))
    && (from.At? && from.reused ==>
          && consulted == before
          && exists e :: && e in before && Matches(e, file, checkpoint, node) && e.hash == Digest(prefix)
                         && from == At(checkpoint.offset, e.context, prefix, true, true))
    && (from.At? && !from.reused ==>
          && consulted == WithoutFile(before, file)
          && (forall e :: e in before && Matches(e, file, checkpoint, node) ==> e.hash != Digest(prefix))
          && if ContextOf(decode, prefix) == EMPTY then from == FRESH else IsReread(decode, data, checkpoint.offset, from))
  }

  ghost predicate OpenedAs(decode: Decoder, before: seq<Entry>, consulted: seq<Entry>, file: string, data: seq<Byte>,
                           checkpoint: Option<Checkpoint>, stamp: Stamp, node: Node, from: Standing)
  {
    var entries := if IsReplaced(checkpoint, stamp) then WithoutFile(before, file) else before;
    if StartOf(checkpoint, stamp) == 0 then from == FRESH && consulted == entries
    else Resumed(decode, entries, consulted, file, data, checkpoint.value, node, from)
  }

  ghost predicate Opened(decode: Decoder, before: seq<Entry>, v: Visiting) {
    OpenedAs(decode, before, v.consulted, v.file, v.data, v.checkpoint, v.stamp, v.node, v.from)
  }

  ghost predicate IsVisit(decode: Decoder, before: seq<Entry>, v: Visiting) {
    && v.stamp.size == |v.data|
    && Opened(decode, before, v)
    && (v.from.At? ==>
          && v.from.start <= |v.data|
          && ReadUpTo(v.data, v.from.start, v.scan)
          && (v.scan.skipped ==> PassesOver(v.data, v.from.start))
          && (SafeCursor(v.data[..v.from.start]) ==> ScanOutcome(v.data, v.from.start, v.scan)))
  }

  /** The scan's lines as they were applied to the context, an unterminated last one included. */
  function LinesRead(scan: Scan): seq<Line> {
    scan.records + RestLines(scan.rest)
  }

  function HashedAfter(v: Visiting): seq<Byte>
    requires v.from.At?
  {
    v.from.hashed + Flatten(v.scan.records)
  }

  /** A committed scan is remembered if it knows something and the digest covers the prefix. */
  predicate Stores(decode: Decoder, v: Visiting) {
    && v.committed && v.from.At? && v.scan.end != RolledBack
    && Fold(decode, v.from.context, LinesRead(v.scan)) != EMPTY
    && v.from.cacheable && !v.scan.skipped && |HashedAfter(v)| == v.scan.safeOffset
  }

  function NewEntry(decode: Decoder, v: Visiting): Entry
    requires v.from.At?
  {
    Entry(v.file, v.scan.safeOffset, v.stamp, v.node, Digest(HashedAfter(v)), Fold(decode, v.from.context, LinesRead(v.scan)))
  }

  function EntriesLeft(decode: Decoder, v: Visiting): seq<Entry> {
    if Stores(decode, v) then Remembered(v.consulted, NewEntry(decode, v)) else v.consulted
  }

  // ---------- Runs ----------

  /** A visit, or dropping the entries of all files but some: of undiscovered ones after a
      discovery, of all after a clear or a change of settings. */
  datatype Step = Visited(v: Visiting) | Prune(files: set<string>)

  function EntriesAfter(decode: Decoder, run: seq<Step>): seq<Entry> {
    if run == [] then []
    else
      match run[|run| - 1]
      case Visited(v) => EntriesLeft(decode, v)
      case Prune(files) => Discovered(EntriesAfter(decode, run[..|run| - 1]), files)
  }

  ghost predicate IsRun(decode: Decoder, run: seq<Step>) {
    run != [] ==>
      && IsRun(decode, run[..|run| - 1])
      && (run[|run| - 1].Visited? ==> IsVisit(decode, EntriesAfter(decode, run[..|run| - 1]), run[|run| - 1].v))
  }

  /** Sixteen entries at most, one per file, each at the safe end of the prefix it hashed. */
  ghost predicate WellKept(entries: seq<Entry>) {
    && |entries| <= MAX_CONTEXTS
    && OnePerFile(entries)
    && forall e :: e in entries ==> SafeCursor(e.hash.bytes) && e.prefixOffset == |e.hash.bytes|
  }

  lemma ConsultedIsWellKept(decode: Decoder, before: seq<Entry>, v: Visiting)
    requires WellKept(before) && Opened(decode, before, v)
    ensures WellKept(v.consulted)
    ensures forall e :: e in v.consulted ==> e in before
  {}

  /** A digest as long as the prefix is the prefix's, and then the prefix ends safely. */
  ghost predicate HashesPrefix(data: seq<Byte>, s: Standing) {
    s.At? && s.start <= |data| && (s.cacheable && |s.hashed| == s.start ==> s.hashed == data[..s.start] && SafeCursor(data[..s.start]))
  }

  lemma OpeningHashesPrefix(decode: Decoder, before: seq<Entry>, v: Visiting)
    requires WellKept(before) && Opened(decode, before, v) && v.from.At?
    ensures HashesPrefix(v.data, v.from)
  {
    assert v.data[..0] == [];
    var start := StartOf(v.checkpoint, v.stamp);
    if start > 0 && v.from.reused {
      var e :| e in before && e.prefixOffset == start && e.hash == Digest(v.data[..start])
               && v.from == At(start, e.context, v.data[..start], true, true);
      assert SafeCursor(e.hash.bytes);
    }
  }

  /** A remembered prefix is the file's prefix up to the new cursor. */
  lemma StoredPrefix(decode: Decoder, before: seq<Entry>, v: Visiting)
    requires WellKept(before) && IsVisit(decode, before, v) && Stores(decode, v)
    ensures v.from.hashed == v.data[..v.from.start] && SafeCursor(v.data[..v.from.start])
    ensures ScanOutcome(v.data, v.from.start, v.scan)
    ensures HashedAfter(v) == v.data[..v.scan.safeOffset]
  {
    OpeningHashesPrefix(decode, before, v);
    DigestGrows(v.data, v.from, v.scan);
  }

  lemma DigestGrows(data: seq<Byte>, from: Standing, scan: Scan)
    requires HashesPrefix(data, from) && ReadUpTo(data, from.start, scan)
    requires from.cacheable && !scan.skipped && |from.hashed + Flatten(scan.records)| == scan.safeOffset
    ensures from.hashed == data[..from.start] && SafeCursor(data[..from.start])
    ensures from.hashed + Flatten(scan.records) == data[..scan.safeOffset]
  {
    assert data[from.start..scan.safeOffset] == Flatten(scan.records);
    assert |from.hashed| == from.start;
    assert data[..scan.safeOffset] == data[..from.start] + data[from.start..scan.safeOffset];
  }

  lemma RememberedIsWellKept(entries: seq<Entry>, e: Entry)
    requires WellKept(entries) && SafeCursor(e.hash.bytes) && e.prefixOffset == |e.hash.bytes|
    ensures WellKept(Remembered(entries, e)) && e in Remembered(entries, e)
    ensures forall other :: other in Remembered(entries, e) && other.file != e.file ==> other in entries
    ensures forall other :: other in Remembered(entries, e) && other.file == e.file ==> other == e
  {
    var all := [e] + WithoutFile(entries, e.file);
    assert all[0] == e;
    assert Remembered(entries, e)[0] == e;
  }

  lemma VisitIsWellKept(decode: Decoder, before: seq<Entry>, v: Visiting)
    requires WellKept(before) && IsVisit(decode, before, v)
    ensures WellKept(EntriesLeft(decode, v))
    ensures forall e :: e in EntriesLeft(decode, v) && e.file != v.file ==> e in before
    ensures Stores(decode, v) ==>
              && NewEntry(decode, v) in EntriesLeft(decode, v)
              && forall e :: e in EntriesLeft(decode, v) && e.file == v.file ==> e == NewEntry(decode, v)
    ensures !Stores(decode, v) ==> forall e :: e in EntriesLeft(decode, v) ==> e in before
  {
    ConsultedIsWellKept(decode, before, v);
    if Stores(decode, v) {
      StoredPrefix(decode, before, v);
      RememberedIsWellKept(v.consulted, NewEntry(decode, v));
    }
  }

  lemma {:induction false} RunIsWellKept(decode: Decoder, run: seq<Step>)
    requires IsRun(decode, run)
    ensures WellKept(EntriesAfter(decode, run))
  {
    if run != [] {
      var init, last := run[..|run| - 1], run[|run| - 1];
      RunIsWellKept(decode, init);
      if last.Visited? {
        VisitIsWellKept(decode, EntriesAfter(decode, init), last.v);
      }
    }
  }
}
