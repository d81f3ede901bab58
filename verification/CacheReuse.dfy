/** Which contexts are used and kept, told from the entries, the checkpoint and the file alone. */
module CacheReuse {
  import opened Options
  import opened Jsonl
  import opened CodexContext
  import opened CacheRuns

  // ---------- Where a visit starts ----------

  /** There is no place to go on from: nothing was recorded, or the file shrank or was rewritten. */
  ghost predicate StartsOver(v: Visiting) {
    match v.checkpoint
    case None => true
    case Some(c) =>
      || c.offset == 0 || c.offset > |v.data|
      || v.stamp.size < c.stamp.size || (v.stamp.size == c.stamp.size && v.stamp.modified != c.stamp.modified)
  }

  /** An entry about this file as recorded, that knows something, for the bytes still before the offset. */
  ghost predicate Applies(e: Entry, v: Visiting)
    requires v.checkpoint.Some? && v.checkpoint.value.offset <= |v.data|
  {
    var c := v.checkpoint.value;
    && e.file == v.file && e.prefixOffset == c.offset && e.stamp == c.stamp && e.node == v.node
    && (e.context.model.Some? || e.context.session.Some?)
    && e.hash.bytes == v.data[..c.offset]
  }

  /** A visit starts over from the first byte, or behind the recorded offset: in the context of
      the entry that applies, if there is one, and otherwise in that of the records before it. If
      these know nothing, it starts over after all. */
  lemma VisitStarts(decode: Decoder, before: seq<Entry>, v: Visiting)
    requires IsVisit(decode, before, v)
    ensures StartsOver(v) ==> v.from == At(0, Context(None, None), [], true, false)
    ensures !StartsOver(v) && v.from.At? ==>
              var c := v.checkpoint.value;
              && (v.from.reused <==> exists e :: e in before && Applies(e, v))
              && (v.from.reused ==> v.from.start == c.offset && exists e :: e in before && Applies(e, v) && v.from.context == e.context)
              && (!v.from.reused ==> v.from.context == ContextOf(decode, v.data[..c.offset])
                                     && v.from.start == if v.from.context == Context(None, None) then 0 else c.offset)
  {
    if !StartsOver(v) && v.from.At? {
      Behind(decode, before, v);
    }
  }

  lemma Behind(decode: Decoder, before: seq<Entry>, v: Visiting)
    requires IsVisit(decode, before, v) && !StartsOver(v) && v.from.At?
    ensures Resumed(decode, before, v.consulted, v.file, v.data, v.checkpoint.value, v.node, v.from)
    ensures forall e :: Applies(e, v) <==>
              Matches(e, v.file, v.checkpoint.value, v.node) && e.hash == Digest(v.data[..v.checkpoint.value.offset])
  {}

  // ---------- What a visit leaves ----------

  /** The entry goes to the front; one of the same file leaves its place, or the last of sixteen
      falls out. */
  ghost predicate IsPutFirst(after: seq<Entry>, e: Entry, before: seq<Entry>) {
    && (forall p :: 0 <= p < |before| && before[p].file == e.file ==> after == [e] + before[..p] + before[p + 1..])
    && ((forall p :: 0 <= p < |before| ==> before[p].file != e.file) ==>
          after == [e] + if |before| < 16 then before else before[..15])
  }

  lemma {:induction false} WithoutOne(entries: seq<Entry>, file: string, p: int)
    requires OnePerFile(entries) && 0 <= p < |entries| && entries[p].file == file
    ensures WithoutFile(entries, file) == entries[..p] + entries[p + 1..]
  {
    if p > 0 {
      WithoutOne(entries[1..], file, p - 1);
      assert entries[..p] == [entries[0]] + entries[1..][..p - 1];
    } else {
      WithoutNone(entries[1..], file);
    }
  }

  lemma {:induction false} WithoutNone(entries: seq<Entry>, file: string)
    requires forall i :: 0 <= i < |entries| ==> entries[i].file != file
    ensures WithoutFile(entries, file) == entries
  {
    if entries != [] {
      WithoutNone(entries[1..], file);
      assert entries == [entries[0]] + entries[1..];
    }
  }

  lemma KnownFileIsPutFirst(entries: seq<Entry>, e: Entry, p: int)
    requires OnePerFile(entries) && |entries| <= MAX_CONTEXTS && 0 <= p < |entries| && entries[p].file == e.file
    ensures Remembered(entries, e) == [e] + entries[..p] + entries[p + 1..]
  {
    WithoutOne(entries, e.file, p);
    assert [e] + (entries[..p] + entries[p + 1..]) == [e] + entries[..p] + entries[p + 1..];
  }

  lemma NewFileIsPutFirst(entries: seq<Entry>, e: Entry)
    requires |entries| <= MAX_CONTEXTS && forall p :: 0 <= p < |entries| ==> entries[p].file != e.file
    ensures Remembered(entries, e) == [e] + if |entries| < 16 then entries else entries[..15]
  {
    WithoutNone(entries, e.file);
    hide WithoutFile;
    if |entries| == 16 {
      assert ([e] + entries)[..16] == [e] + entries[..15];
    }
  }

  lemma RememberedIsPutFirst(entries: seq<Entry>, e: Entry)
    requires OnePerFile(entries) && |entries| <= MAX_CONTEXTS
    ensures IsPutFirst(Remembered(entries, e), e, entries)
  {
    hide Remembered, OnePerFile;
    forall p | 0 <= p < |entries| && entries[p].file == e.file
      ensures Remembered(entries, e) == [e] + entries[..p] + entries[p + 1..]
    {
      KnownFileIsPutFirst(entries, e, p);
    }
    if forall p :: 0 <= p < |entries| ==> entries[p].file != e.file {
      NewFileIsPutFirst(entries, e);
    }
  }

  /** What a committed scan learned: the context at its end and the prefix up to its cursor, if
      that was read whole. */
  ghost predicate IsLearned(decode: Decoder, v: Visiting, e: Entry)
    requires v.from.At? && v.scan.safeOffset <= |v.data|
  {
    && e.file == v.file && e.prefixOffset == v.scan.safeOffset && e.stamp == v.stamp && e.node == v.node
    && e.hash.bytes == v.data[..v.scan.safeOffset]
    && e.context == Fold(decode, v.from.context, v.scan.records + if v.scan.rest.Some? then [v.scan.rest.value] else [])
  }

  ghost predicate IsKept(decode: Decoder, v: Visiting, after: seq<Entry>)
    requires v.from.At? && v.scan.safeOffset <= |v.data|
  {
    exists e :: IsLearned(decode, v, e) && IsPutFirst(after, e, v.consulted)
  }

  lemma StoredIsKept(decode: Decoder, before: seq<Entry>, v: Visiting)
    requires WellKept(before) && IsVisit(decode, before, v) && Stores(decode, v)
    ensures IsKept(decode, v, EntriesLeft(decode, v))
  {
    ConsultedIsWellKept(decode, before, v);
    StoredPrefix(decode, before, v);
    hide IsVisit, Fold, IsPutFirst;
    RememberedIsPutFirst(v.consulted, NewEntry(decode, v));
    assert IsLearned(decode, v, NewEntry(decode, v));
  }

  /** A visit leaves the entries of other files, in their order, and of its own file only what
      its committed scan learned, put first, or else the entry it reused. */
  lemma VisitLeaves(decode: Decoder, before: seq<Entry>, v: Visiting)
    requires WellKept(before) && IsVisit(decode, before, v)
    ensures v.consulted == before || v.consulted == WithoutFile(before, v.file)
    ensures v.from.At? && v.from.reused ==> v.consulted == before
    ensures v.from.At? && !v.from.reused && !StartsOver(v) ==> v.consulted == WithoutFile(before, v.file)
    ensures EntriesLeft(decode, v) != v.consulted ==>
              v.committed && v.from.At? && v.scan.safeOffset <= |v.data| && IsKept(decode, v, EntriesLeft(decode, v))
  {
    if Stores(decode, v) {
      StoredIsKept(decode, before, v);
    }
  }

  /** A committed scan from the start of a line is remembered, if it knows something and no
      oversized record was in its way. */
  lemma CleanScanIsRemembered(decode: Decoder, before: seq<Entry>, v: Visiting)
    requires WellKept(before) && IsVisit(decode, before, v)
    requires v.committed && v.from.At? && v.scan.end != RolledBack
    requires !PassesOver(v.data, 0) && SplitOf(v.data[..v.from.start]).tail == []
    requires Fold(decode, v.from.context, v.scan.records + if v.scan.rest.Some? then [v.scan.rest.value] else []) != Context(None, None)
    ensures IsKept(decode, v, EntriesLeft(decode, v))
  {
    CleanScanStores(decode, before, v);
    StoredIsKept(decode, before, v);
  }

  lemma CleanScanStores(decode: Decoder, before: seq<Entry>, v: Visiting)
    requires WellKept(before) && IsVisit(decode, before, v)
    requires v.committed && v.from.At? && v.scan.end != RolledBack
    requires !PassesOver(v.data, 0) && SplitOf(v.data[..v.from.start]).tail == []
    requires Fold(decode, v.from.context, LinesRead(v.scan)) != EMPTY
    ensures Stores(decode, v)
  {
    NothingPassedOver(v.data, v.from.start);
    HashedWhole(decode, before, v);
    hide PassesOver, WellKept, Opened, Fold, SplitOf, ScanOutcome, LinesRead;
    assert |v.data[v.from.start..v.scan.safeOffset]| == v.scan.safeOffset - v.from.start;
  }

  lemma NothingPassedOver(data: seq<Byte>, start: nat)
    requires start <= |data| && !PassesOver(data, 0) && SplitOf(data[..start]).tail == []
    ensures !PassesOver(data, start)
  {
    assert forall i :: IsOversized(data, start, i) ==> IsOversized(data, 0, i);
  }

  lemma HashedWhole(decode: Decoder, before: seq<Entry>, v: Visiting)
    requires WellKept(before) && IsVisit(decode, before, v) && v.from.At?
    requires !PassesOver(v.data, 0) && SplitOf(v.data[..v.from.start]).tail == []
    ensures v.from.cacheable && v.from.hashed == v.data[..v.from.start]
  {
    hide PassesOver;
    assert v.data[..0] == [];
  }
}
