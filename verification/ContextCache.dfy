/** Resuming a Codex file: the remembered context is used only after the file's prefix
    hashes to the remembered digest; otherwise the prefix is read again. */
module ContextCache {
  import opened Options
  import opened Jsonl
  import opened CodexContext
  import opened CacheRuns
  import CacheSoundness

  /** The contexts remembered between scans, with the run that led to them. */
  class Cache {
    const decode: Decoder
    var entries: seq<Entry>
    ghost var history: seq<Step>

    ghost predicate Valid()
      reads this
    {
      IsRun(decode, history) && entries == EntriesAfter(decode, history)
    }

    constructor (decode: Decoder)
      ensures Valid() && this.decode == decode && entries == [] && history == []
    {
      this.decode := decode;
      entries, history := [], [];
    }

    /** The entry that is about exactly this file, in exactly the recorded state. */
    method Find(file: string, checkpoint: Checkpoint, node: Node) returns (found: Option<Entry>)
      requires OnePerFile(entries)
      ensures found.Some? ==> found.value in entries && Matches(found.value, file, checkpoint, node)
      ensures found.None? ==> forall e :: e in entries ==> !Matches(e, file, checkpoint, node)
    {
      found := None;
      for i := 0 to |entries|
        invariant found.None?
        invariant forall j :: 0 <= j < i ==> entries[j].file != file
      {
        var e := entries[i];
        if e.file == file {
          if e.prefixOffset == checkpoint.offset && e.stamp == checkpoint.stamp && e.node == node && e.context != EMPTY {
            found := Some(e);
          }
          return;
        }
      }
    }

    /** Reads the raw prefix in chunks; falls short when the budget or the device gives out. */
    method HashPrefix(device: Device, length: nat, bytesBefore: nat) returns (hashed: seq<Byte>, bytesRead: nat)
      requires device.Valid() && length <= |device.data|
      modifies device
      ensures device.Valid()
      ensures |hashed| <= length && hashed == device.data[..|hashed|]
      ensures bytesRead == bytesBefore + |hashed|
      ensures old(device.disturbed) ==> device.disturbed
      ensures |hashed| < length ==> device.disturbed || bytesRead >= SCAN_BUDGET
    {
      hashed, bytesRead := [], bytesBefore;
      var ok := device.Seek(0);
      while ok && |hashed| < length
        invariant device.Valid() && |hashed| <= length
        invariant ok ==> device.pos == |hashed|
        invariant hashed == device.data[..|hashed|]
        invariant bytesRead == bytesBefore + |hashed|
        invariant old(device.disturbed) || !ok ==> device.disturbed
        decreases length - |hashed|, ok
      {
        if bytesRead >= SCAN_BUDGET {
          break;
        }
        var left := length - |hashed|;
        if SCAN_BUDGET - bytesRead < left {
          left := SCAN_BUDGET - bytesRead;
        }
        if CHUNK_BYTES < left {
          left := CHUNK_BYTES;
        }
        var chunk := device.Read(left);
        if chunk == [] {
          ok := false;
        } else {
          assert device.data[..device.pos] == hashed + chunk;
          hashed := hashed + chunk;
          bytesRead := bytesRead + |chunk|;
        }
      }
    }

    /** Reads the records before `start` again. */
    method RebuildContext(device: Device, start: nat, bytesBefore: nat) returns (s: Standing, bytesRead: nat)
      requires device.Valid() && start <= |device.data|
      modifies device
      ensures device.Valid()
      ensures s.At? ==> IsReread(decode, device.data, start, s)
      ensures old(device.disturbed) ==> device.disturbed
      ensures s.Abandoned? ==> device.disturbed || bytesRead >= SCAN_BUDGET
    {
      ghost var data := device.data;
      var context, hashed, cacheable := EMPTY, [], true;
      bytesRead := bytesBefore;
      var ok := device.Seek(0);
      if !ok {
        return Abandoned, bytesRead;
      }
      StartOfFile(decode, data);
      hide ContextOf, SafeCursor, ReadOutcome, AtLine;
      while device.pos < start
        invariant device.Valid() && device.pos <= start
        invariant Reread(decode, data, device.pos, context, hashed, cacheable)
        invariant AtLine(data, device.pos, hashed, cacheable)
        invariant old(device.disturbed) ==> device.disturbed
        decreases start - device.pos
      {
        ghost var from, before, digest, whole := device.pos, context, hashed, cacheable;
        var budget := if start - device.pos < SCAN_BUDGET - bytesRead then start - device.pos else SCAN_BUDGET - bytesRead;
        var r := ReadRecord(device, budget);
        bytesRead := bytesRead + r.bytesRead;
        if r.discarded {
          cacheable := false;
        }
        if r.complete && !r.discarded {
          context := After(context, decode(r.line));
          hashed := hashed + r.line;
        }
        if ReadOutcome(data, from, device.pos, r) {
          RereadStep(decode, data, from, device.pos, before, digest, whole, r);
        }
        if r.interrupted {
          break;
        }
      }
      if device.pos < start {
        s := Abandoned;
      } else {
        s := At(start, context, hashed, cacheable, false);
      }
    }

    method Forget(file: string)
      modifies this`entries
      ensures entries == WithoutFile(old(entries), file)
    {
      entries := WithoutFile(entries, file);
    }

    /** Finds the context at the recorded offset: from the cache if the prefix still hashes to
        the remembered digest, by reading the prefix again otherwise. */
    method Resume(file: string, device: Device, checkpoint: Checkpoint, node: Node, bytesBefore: nat)
      returns (s: Standing, bytesRead: nat)
      requires device.Valid() && 0 < checkpoint.offset <= |device.data|
      requires OnePerFile(entries)
      modifies this`entries, device
      ensures device.Valid()
      ensures Resumed(decode, old(entries), entries, file, device.data, checkpoint, node, s)
      ensures s.At? ==> s.start <= |device.data|
      ensures old(device.disturbed) ==> device.disturbed
      ensures s.Abandoned? ==> device.disturbed || bytesRead >= SCAN_BUDGET
    {
      var start := checkpoint.offset;
      var found := Find(file, checkpoint, node);
      bytesRead := bytesBefore;
      if found.Some? {
        var hashed;
        hashed, bytesRead := HashPrefix(device, start, bytesRead);
        if |hashed| < start {
          return Abandoned, bytesRead;
        }
        if Digest(hashed) == found.value.hash {
          return At(start, found.value.context, hashed, true, true), bytesRead;
        }
        NoOtherMatch(entries, found.value, file, checkpoint, node);
      }
      Forget(file);
      s, bytesRead := RebuildContext(device, start, bytesRead);
      if s.At? && s.context == EMPTY {
        // Nothing is known about the session, so the file is read from its start.
        s := FRESH;
      }
    }

    /** One visit of a changed file: place, resume, scan, and remember what a committed
        scan learned. */
    method VisitFile(file: string, device: Device, checkpoint: Option<Checkpoint>, stamp: Stamp, node: Node,
                     committed: bool, bytesBefore: nat)
      returns (from: Standing, scan: Scan, bytesRead: nat, ghost v: Visiting)
      requires Valid() && device.Valid() && stamp.size == |device.data|
      modifies this`entries, this`history, device
      ensures Valid() && device.Valid()
      ensures history == old(history) + [Visited(v)] && IsVisit(decode, old(entries), v)
      ensures v == Visiting(file, device.data, checkpoint, stamp, node, committed, v.consulted, from, scan)
      // Only a disturbance or a used-up budget keeps a visit from reading its file to the end.
      ensures from.Abandoned? || scan.end != Finished ==> device.disturbed || bytesRead >= 268_435_456
      // In a file whose stored scans ended at newlines, a visit starts as if from the first byte.
      ensures from.At? && CacheSoundness.EndsAtNewlines(decode, old(history), file)
              ==> from.context == ContextOf(decode, device.data[..from.start])
    {
      RunIsWellKept(decode, history);
      hide OpenedAs, ScanOutcome, ReadUpTo, SafeCursor, ContextOf, EntriesLeft, EntriesAfter, IsRun, PassesOver;
      from, bytesRead := OpenFile(file, device, checkpoint, stamp, node, bytesBefore);
      scan := Scan([], None, 0, false, RolledBack);
      ghost var consulted := entries;
      if from.At? {
        device.pos := from.start;
        scan, bytesRead := ScanFile(device, bytesRead);
      }
      v := Visiting(file, device.data, checkpoint, stamp, node, committed, consulted, from, scan);
      if from.At? && committed && scan.end != RolledBack {
        Learn(file, stamp, node, from, scan, v);
      }
      Record(old(entries), v);
      if from.At? && CacheSoundness.EndsAtNewlines(decode, old(history), file) {
        CacheSoundness.NewlineEndedIsExact(decode, old(history), file);
      }
    }

    /** Finds where to read on, and in what context. */
    method OpenFile(file: string, device: Device, checkpoint: Option<Checkpoint>, stamp: Stamp, node: Node, bytesBefore: nat)
      returns (from: Standing, bytesRead: nat)
      requires device.Valid() && stamp.size == |device.data| && OnePerFile(entries)
      modifies this`entries, device
      ensures device.Valid()
      ensures OpenedAs(decode, old(entries), entries, file, device.data, checkpoint, stamp, node, from)
      ensures from.At? ==> from.start <= |device.data|
      ensures old(device.disturbed) ==> device.disturbed
      ensures from.Abandoned? ==> device.disturbed || bytesRead >= SCAN_BUDGET
    {
      hide Resumed;
      var start := if checkpoint.Some? then checkpoint.value.offset else 0;
      if checkpoint.Some? && (stamp.size < checkpoint.value.stamp.size
                              || (stamp.size == checkpoint.value.stamp.size
                                  && stamp.modified != checkpoint.value.stamp.modified)) {
        start := 0;
        Forget(file);
      }
      if start > stamp.size {
        start := 0;
      }
      from, bytesRead := FRESH, bytesBefore;
      if start > 0 {
        from, bytesRead := Resume(file, device, checkpoint.value, node, bytesRead);
      }
    }

    ghost method Record(before: seq<Entry>, v: Visiting)
      requires IsRun(decode, history) && before == EntriesAfter(decode, history)
      requires IsVisit(decode, before, v) && entries == EntriesLeft(decode, v)
      modifies this`history
      ensures Valid() && history == old(history) + [Visited(v)]
    {
      history := history + [Visited(v)];
      assert history[..|history| - 1] == old(history);
    }

    /** Remembers the context after a committed scan, provided the digest covers the prefix. */
    method Learn(file: string, stamp: Stamp, node: Node, from: Standing, scan: Scan, ghost v: Visiting)
      requires v.committed && from.At? && scan.end != RolledBack
      requires v == Visiting(file, v.data, v.checkpoint, stamp, node, true, entries, from, scan)
      modifies this`entries
      ensures entries == EntriesLeft(decode, v)
    {
      var context := from.context;
      for i := 0 to |scan.records|
        invariant context == Fold(decode, from.context, scan.records[..i])
      {
        context := After(context, decode(scan.records[i]));
        assert scan.records[..i + 1][..i] == scan.records[..i];
      }
      assert scan.records[..|scan.records|] == scan.records;
      if scan.rest.Some? {
        context := After(context, decode(scan.rest.value));
        FoldSplit(decode, from.context, scan.records, [scan.rest.value]);
        FoldOne(decode, Fold(decode, from.context, scan.records), scan.rest.value);
      } else {
        assert LinesRead(scan) == scan.records;
      }
      var hashed := from.hashed + Flatten(scan.records);
      if context != EMPTY && from.cacheable && !scan.skipped && |hashed| == scan.safeOffset {
        entries := Remembered(entries, Entry(file, scan.safeOffset, stamp, node, Digest(hashed), context));
      }
    }

    /** After a discovery only the files found keep their contexts. */
    method Prune(files: set<string>)
      requires Valid()
      modifies this`entries, this`history
      ensures Valid() && history == old(history) + [Step.Prune(files)]
      ensures forall e :: e in entries <==> e in old(entries) && e.file in files
    {
      entries := Discovered(entries, files);
      history := history + [Step.Prune(files)];
      assert history[..|history| - 1] == old(history);
    }

    /** Clearing sessions or changing what is imported forgets every context. */
    method Clear()
      requires Valid()
      modifies this`entries, this`history
      ensures Valid() && history == old(history) + [Step.Prune({})] && entries == []
    {
      DiscoveredNone(entries);
      entries, history := [], history + [Step.Prune({})];
      assert history[..|history| - 1] == old(history);
    }
  }

  // ---------- Reading a prefix again ----------

  /** The digest is that of what was read, where a line starts. */
  ghost predicate DigestHolds(data: seq<Byte>, pos: nat, hashed: seq<Byte>, cacheable: bool) {
    && pos <= |data|
    && (cacheable && (|hashed| == pos || SplitOf(data[..pos]).tail == []) ==> hashed == data[..pos] && SafeCursor(data[..pos]))
    && (!cacheable ==> PassesOver(data, 0))
  }

  /** Before the end of the file reading goes on at the start of a line, and all before it was hashed. */
  ghost predicate AtLine(data: seq<Byte>, pos: nat, hashed: seq<Byte>, cacheable: bool) {
    pos < |data| ==> SplitOf(data[..pos]).tail == [] && (cacheable ==> |hashed| == pos)
  }

  ghost predicate Reread(decode: Decoder, data: seq<Byte>, pos: nat, context: Context, hashed: seq<Byte>, cacheable: bool) {
    DigestHolds(data, pos, hashed, cacheable) && context == ContextOf(decode, data[..pos])
  }

  lemma StartOfFile(decode: Decoder, data: seq<Byte>)
    ensures Reread(decode, data, 0, EMPTY, [], true) && AtLine(data, 0, [], true)
  {
    assert data[..0] == [];
  }

  lemma RereadStep(decode: Decoder, data: seq<Byte>, from: nat, end: nat, context: Context, hashed: seq<Byte>, cacheable: bool,
                   r: ReadResult)
    requires from < |data| && Reread(decode, data, from, context, hashed, cacheable) && AtLine(data, from, hashed, cacheable)
    requires ReadOutcome(data, from, end, r)
    ensures
      var kept := r.complete && !r.discarded;
      var digest := if kept then hashed + r.line else hashed;
      && Reread(decode, data, end, if kept then After(context, decode(r.line)) else context, digest, cacheable && !r.discarded)
      && (!r.interrupted ==> AtLine(data, end, digest, cacheable && !r.discarded))
  {
    Refold(decode, data, from, end, r);
    ReadKeeps(data, from, end, r);
    hide ContextOf, SafeCursor, SplitOf, Unbroken, Kept, DigestHolds;
    if r.discarded {
      DiscardedDigest(data, from, end, hashed, r);
    } else if r.complete {
      LongerDigest(data, from, end, hashed, cacheable, r.line);
    } else {
      SameDigest(data, from, end, hashed, cacheable);
    }
  }

  lemma DiscardedDigest(data: seq<Byte>, from: nat, end: nat, hashed: seq<Byte>, r: ReadResult)
    requires from < |data| && SplitOf(data[..from]).tail == [] && ReadOutcome(data, from, end, r) && r.discarded
    ensures DigestHolds(data, end, hashed, false)
  {
    TailEmptyIff(data[..from]);
    DiscardPassesOver(data, 0, from, end, r);
  }

  lemma LongerDigest(data: seq<Byte>, from: nat, end: nat, hashed: seq<Byte>, cacheable: bool, line: Line)
    requires from < end <= |data| && SplitOf(data[..from]).tail == [] && SplitOf(data[..end]).tail == []
    requires DigestHolds(data, from, hashed, cacheable) && line == data[from..end]
    ensures DigestHolds(data, end, hashed + line, cacheable)
    ensures |hashed| == from ==> |hashed + line| == end
  {
    hide SplitOf, PassesOver;
    assert data[..end] == data[..from] + line;
  }

  lemma SameDigest(data: seq<Byte>, from: nat, end: nat, hashed: seq<Byte>, cacheable: bool)
    requires from <= end <= |data| && SplitOf(data[..from]).tail == [] && SplitOf(data[..end]).tail == data[from..end]
    requires DigestHolds(data, from, hashed, cacheable)
    ensures DigestHolds(data, end, hashed, cacheable)
  {
    hide SplitOf, PassesOver;
    assert |data[from..end]| == end - from;
  }

  lemma NoOtherMatch(entries: seq<Entry>, found: Entry, file: string, checkpoint: Checkpoint, node: Node)
    requires OnePerFile(entries) && found in entries && found.file == file
    ensures forall e :: e in entries && Matches(e, file, checkpoint, node) ==> e == found
  {
    var i :| 0 <= i < |entries| && entries[i] == found;
    assert forall j :: 0 <= j < |entries| && entries[j].file == file ==> j == i;
  }

  /** Reading one more record applies exactly that record to the context. */
  lemma Refold(decode: Decoder, data: seq<Byte>, start: nat, end: nat, r: ReadResult)
    requires ReadOutcome(data, start, end, r) && SafeCursor(data[..start])
    ensures ContextOf(decode, data[..end])
            == if r.complete && !r.discarded then After(ContextOf(decode, data[..start]), decode(r.line))
               else ContextOf(decode, data[..start])
    ensures r.complete ==> SafeCursor(data[..end])
  {
    ReadKeeps(data, start, end, r);
    if r.complete && !r.discarded {
      FoldSplit(decode, EMPTY, Kept(data[..start]), [r.line]);
      assert [r.line][..0] == [];
    } else {
      assert Kept(data[..start]) + [] == Kept(data[..start]);
    }
  }
}
