/** Reading a growing JSONL file record by record under a byte budget, and resuming
    from a committed cursor. The device is a byte sequence with a position. A single read
    may deliver any non-empty part of the current line, or nothing when the device fails. */
module Jsonl {
  import opened Options

  newtype Byte = b: int | 0 <= b < 256

  type Line = seq<Byte>

  const NEWLINE: Byte := 10
  const MAX_RECORD_BYTES := 1024 * 1024
  const CHUNK_BYTES := 64 * 1024

  // ---------- Reference: what the records of a byte sequence are ----------

  datatype Split = Split(done: seq<Line>, tail: Line)

  /** The newline-terminated lines of `s`, and the unterminated rest. */
  function SplitOf(s: seq<Byte>): Split
  {
    if s == [] then Split([], [])
    else
      var before := SplitOf(s[..|s| - 1]);
      var last := s[|s| - 1];
      if last == NEWLINE then Split(before.done + [before.tail + [last]], [])
      else Split(before.done, before.tail + [last])
  }

  /** No newline among `s[from..to]`. */
  predicate Unbroken(s: seq<Byte>, from: int, to: int)
    requires 0 <= from && to <= |s|
  {
    forall i :: from <= i < to ==> s[i] != NEWLINE
  }

  predicate IsRecord(line: Line) {
    line != [] && line[|line| - 1] == NEWLINE && Unbroken(line, 0, |line| - 1)
  }

  predicate EndsLine(s: seq<Byte>) {
    s != [] && s[|s| - 1] == NEWLINE
  }

  function Flatten(lines: seq<Line>): seq<Byte> {
    if lines == [] then [] else Flatten(lines[..|lines| - 1]) + lines[|lines| - 1]
  }

  lemma FlattenSnoc(lines: seq<Line>, line: Line)
    ensures Flatten(lines + [line]) == Flatten(lines) + line
  {
    assert (lines + [line])[..|lines|] == lines;
  }

  lemma {:induction false} SplitLosesNothing(s: seq<Byte>)
    ensures Flatten(SplitOf(s).done) + SplitOf(s).tail == s
  {
    if s != [] {
      var before, last := SplitOf(s[..|s| - 1]), s[|s| - 1];
      SplitLosesNothing(s[..|s| - 1]);
      FlattenSnoc(before.done, before.tail + [last]);
      hide Flatten;
      assert s == s[..|s| - 1] + [last];
      assert Flatten(before.done) + (before.tail + [last]) == s;
    }
  }

  lemma {:induction false} SplitCutsAtNewlines(s: seq<Byte>)
    ensures forall l :: l in SplitOf(s).done ==> IsRecord(l)
    ensures Unbroken(SplitOf(s).tail, 0, |SplitOf(s).tail|)
  {
    if s != [] {
      SplitCutsAtNewlines(s[..|s| - 1]);
    }
  }

  /** The records small enough to be parsed. */
  function Small(lines: seq<Line>): seq<Line> {
    if lines == [] then []
    else
      var last := lines[|lines| - 1];
      Small(lines[..|lines| - 1]) + if |last| <= MAX_RECORD_BYTES then [last] else []
  }

  /** The records of `s` that an importer must hand to the parser, in order. */
  function Kept(s: seq<Byte>): seq<Line> {
    Small(SplitOf(s).done)
  }

  /** A cursor stands at the start of a record or so deep in an oversized one that
      the record is already known to be skipped. */
  predicate SafeCursor(s: seq<Byte>) {
    SplitOf(s).tail == [] || |SplitOf(s).tail| > MAX_RECORD_BYTES
  }

  // ---------- Properties of the reference ----------

  lemma {:induction false} SplitExtend(s: seq<Byte>, t: seq<Byte>)
    requires Unbroken(t, 0, |t| - 1)
    ensures SplitOf(s + t) ==
            if EndsLine(t) then Split(SplitOf(s).done + [SplitOf(s).tail + t], [])
            else Split(SplitOf(s).done, SplitOf(s).tail + t)
  {
    if t == [] {
      assert s + t == s;
      assert SplitOf(s).tail + t == SplitOf(s).tail;
    } else {
      var u, last := t[..|t| - 1], t[|t| - 1];
      var all := s + t;
      assert all[..|all| - 1] == s + u;
      SplitExtend(s, u);
      assert !EndsLine(u);
      assert (SplitOf(s).tail + u) + [last] == SplitOf(s).tail + t by {
        assert t == u + [last];
      }
    }
  }

  lemma KeptExtend(s: seq<Byte>, t: seq<Byte>)
    requires Unbroken(t, 0, |t| - 1)
    ensures Kept(s + t) ==
            Kept(s) + if EndsLine(t) && |SplitOf(s).tail + t| <= MAX_RECORD_BYTES
                      then [SplitOf(s).tail + t] else []
    ensures SplitOf(s + t).tail == if EndsLine(t) then [] else SplitOf(s).tail + t
  {
    SplitExtend(s, t);
    if EndsLine(t) {
      var lines := SplitOf(s).done + [SplitOf(s).tail + t];
      assert lines[..|lines| - 1] == SplitOf(s).done;
    }
  }

  /** The split is the only one: any records followed by an unbroken rest are found again. */
  lemma {:induction false} SplitIsUnique(lines: seq<Line>, tail: Line)
    requires forall l :: l in lines ==> IsRecord(l)
    requires Unbroken(tail, 0, |tail|)
    ensures SplitOf(Flatten(lines) + tail) == Split(lines, tail)
  {
    RecordsAreFound(lines);
    hide SplitOf, Flatten, IsRecord;
    SplitExtend(Flatten(lines), tail);
    assert [] + tail == tail;
  }

  lemma {:induction false} RecordsAreFound(lines: seq<Line>)
    requires forall l :: l in lines ==> IsRecord(l)
    ensures SplitOf(Flatten(lines)) == Split(lines, [])
  {
    if lines != [] {
      var init, last := lines[..|lines| - 1], lines[|lines| - 1];
      assert last in lines && IsRecord(last);
      RecordsAreFound(init);
      FlattenSnoc(init, last);
      SplitExtend(Flatten(init), last);
      hide SplitOf, Flatten;
      assert [] + last == last && init + [last] == lines;
    }
  }

  /** The byte before a cursor tells whether the cursor stands inside a record. */
  lemma TailEmptyIff(s: seq<Byte>)
    ensures SplitOf(s).tail == [] <==> s == [] || s[|s| - 1] == NEWLINE
  {}

  lemma {:induction false} SmallAreRecords(lines: seq<Line>)
    requires forall l :: l in lines ==> IsRecord(l)
    ensures forall l :: l in Small(lines) ==> IsRecord(l) && |l| <= MAX_RECORD_BYTES
  {
    if lines != [] {
      SmallAreRecords(lines[..|lines| - 1]);
    }
  }

  lemma {:induction false} SmallAreFound(lines: seq<Line>, l: Line)
    ensures l in Small(lines) <==> l in lines && |l| <= 1_048_576
  {
    if lines != [] {
      var init := lines[..|lines| - 1];
      assert lines == init + [lines[|lines| - 1]];
      SmallAreFound(init, l);
    }
  }

  /** Kept are the records of at most 1 MiB. */
  lemma KeptAreRecords(s: seq<Byte>)
    ensures forall l :: l in Kept(s) <==> l in SplitOf(s).done && |l| <= 1_048_576
    ensures forall l :: l in Kept(s) ==> IsRecord(l)
  {
    SplitCutsAtNewlines(s);
    SmallAreRecords(SplitOf(s).done);
    forall l
      ensures l in Kept(s) <==> l in SplitOf(s).done && |l| <= 1_048_576
    {
      SmallAreFound(SplitOf(s).done, l);
    }
  }

  // ---------- The device ----------

  class Device {
    const data: seq<Byte>
    var pos: nat
    /** A cancellation was seen, or a seek or a read failed. */
    ghost var disturbed: bool

    ghost predicate Valid()
      reads this
    {
      pos <= |data|
    }

    constructor (data: seq<Byte>)
      ensures Valid() && this.data == data && pos == 0 && !disturbed
    {
      this.data := data;
      pos, disturbed := 0, false;
    }

    /** Seeking either succeeds or leaves the position alone. */
    method Seek(target: nat) returns (ok: bool)
      requires Valid() && target <= |data|
      modifies this
      ensures Valid()
      ensures ok ==> pos == target && disturbed == old(disturbed)
      ensures !ok ==> pos == old(pos) && disturbed
    {
      ok := *;
      if ok {
        pos := target;
      } else {
        disturbed := true;
      }
    }

    /** Reads some bytes, at most `limit`, whatever they are, and none only when it fails. */
    method Read(limit: nat) returns (chunk: seq<Byte>)
      requires Valid() && limit > 0 && pos < |data|
      modifies this
      ensures Valid()
      ensures old(pos) <= pos && chunk == data[old(pos)..pos]
      ensures |chunk| <= limit
      ensures disturbed == (old(disturbed) || chunk == [])
    {
      var n: nat :| n <= limit && pos + n <= |data|;
      chunk := data[pos..pos + n];
      pos, disturbed := pos + n, disturbed || n == 0;
    }

    /** Reads some bytes of the current line, at most `limit`, never past its newline. */
    method ReadLine(limit: nat) returns (chunk: seq<Byte>)
      requires Valid() && limit > 0 && pos < |data|
      modifies this
      ensures Valid()
      ensures old(pos) <= pos && chunk == data[old(pos)..pos]
      ensures |chunk| <= limit
      ensures Unbroken(data, old(pos), pos - 1)
      ensures disturbed == (old(disturbed) || chunk == [])
    {
      var n: nat :| n <= limit && pos + n <= |data| && Unbroken(data, pos, pos + n - 1);
      chunk := data[pos..pos + n];
      pos, disturbed := pos + n, disturbed || n == 0;
    }

    /** Asks whether the read is still wanted. */
    method IsCancelled() returns (cancelled: bool)
      modifies this`disturbed
      ensures disturbed == (old(disturbed) || cancelled)
    {
      cancelled := *;
      disturbed := disturbed || cancelled;
    }
  }

  datatype ReadResult = ReadResult(line: Line, bytesRead: nat, complete: bool, discarded: bool, interrupted: bool)

  /** What one read from `start` may return when it leaves the device at `end`. */
  ghost predicate ReadOutcome(data: seq<Byte>, start: nat, end: nat, r: ReadResult)
  {
    && start <= end <= |data|
    && r.bytesRead == end - start
    && Unbroken(data, start, end - 1)
    && (r.complete <==> end > start && data[end - 1] == NEWLINE)
    && (r.discarded <==> SplitOf(data[..start]).tail != [] || end - start > MAX_RECORD_BYTES)
    && r.line == (if r.discarded then [] else data[start..end])
    && (r.interrupted ==> !r.complete)
    && (!r.complete && !r.interrupted ==> end == |data|)
  }

  /** Nothing but part of one line was read, up to its newline if `complete`. */
  ghost predicate ReadTo(data: seq<Byte>, start: nat, pos: nat, complete: bool) {
    && start <= pos <= |data|
    && if complete then pos > start && data[pos - 1] == NEWLINE && Unbroken(data, start, pos - 1) else Unbroken(data, start, pos)
  }

  lemma ChunkExtends(data: seq<Byte>, start: nat, from: nat, to: nat)
    requires from < to <= |data| && ReadTo(data, start, from, false) && Unbroken(data, from, to - 1)
    ensures data[start..to] == data[start..from] + data[from..to]
    ensures ReadTo(data, start, to, data[from..to][to - from - 1] == NEWLINE)
  {}

  lemma ReadEnds(data: seq<Byte>, start: nat, pos: nat, r: ReadResult)
    requires ReadTo(data, start, pos, r.complete) && r.bytesRead == pos - start
    requires r.discarded <==> SplitOf(data[..start]).tail != [] || pos - start > MAX_RECORD_BYTES
    requires r.line == (if r.discarded then [] else data[start..pos])
    requires r.interrupted ==> !r.complete
    requires !r.complete && !r.interrupted ==> pos == |data|
    ensures ReadOutcome(data, start, pos, r)
  {
    hide SplitOf;
  }

  /** Reads the byte before the position to see whether it stands inside a record. */
  method LooksBack(device: Device) returns (ready: bool, inside: bool)
    requires device.Valid()
    modifies device
    ensures device.Valid() && device.pos == old(device.pos)
    ensures device.disturbed == (old(device.disturbed) || !ready)
    ensures ready ==> (inside <==> SplitOf(device.data[..device.pos]).tail != [])
  {
    var start := device.pos;
    TailEmptyIff(device.data[..start]);
    ready, inside := true, false;
    if start > 0 {
      ready := device.Seek(start - 1);
      if ready {
        inside := device.data[start - 1] != NEWLINE;
        ready := device.Seek(start);
        // The byte just read leaves the position at `start` even when the seek fails.
        device.pos := start;
      }
    }
  }

  /** Reads one record. Without a cancellation or a device failure only the byte budget interrupts it. */
  method ReadRecord(device: Device, byteBudget: int) returns (r: ReadResult)
    requires device.Valid()
    modifies device
    ensures device.Valid()
    ensures || ReadOutcome(device.data, old(device.pos), device.pos, r)
            || (device.disturbed && device.pos == old(device.pos) && r == ReadResult([], 0, false, false, true))
    ensures r.bytesRead <= if byteBudget < 0 then 0 else byteBudget
    ensures old(device.disturbed) ==> device.disturbed
    ensures !r.interrupted ==> device.disturbed == old(device.disturbed)
    ensures r.interrupted ==> device.disturbed || r.bytesRead >= byteBudget
  {
    var start := device.pos;
    ghost var data := device.data;
    var line, bytesRead, complete, interrupted := [], 0, false, false;
    var ready, discarded := LooksBack(device);
    if !ready {
      return ReadResult([], 0, false, false, true);
    }
    assert ReadTo(data, start, start, false);
    hide SplitOf, Unbroken, ReadTo, ReadOutcome;
    ghost var inside := discarded;
    while device.pos < |device.data|
      invariant device.Valid() && device.pos == start + bytesRead
      invariant bytesRead <= if byteBudget < 0 then 0 else byteBudget
      invariant ReadTo(data, start, device.pos, false)
      invariant !complete && !interrupted && device.disturbed == old(device.disturbed)
      invariant discarded <==> inside || bytesRead > MAX_RECORD_BYTES
      invariant line == if discarded then [] else data[start..device.pos]
      decreases |device.data| - device.pos
    {
      var cancelled := device.IsCancelled();
      if bytesRead >= byteBudget || cancelled {
        interrupted := true;
        break;
      }
      var chunkSize := if byteBudget - bytesRead < CHUNK_BYTES then byteBudget - bytesRead else CHUNK_BYTES;
      ghost var before := device.pos;
      var chunk := device.ReadLine(chunkSize);
      if chunk == [] {
        interrupted := true;
        break;
      }
      ChunkExtends(data, start, before, device.pos);
      bytesRead := bytesRead + |chunk|;
      if !discarded {
        if |line| + |chunk| > MAX_RECORD_BYTES {
          discarded, line := true, [];
        } else {
          line := line + chunk;
        }
      }
      if chunk[|chunk| - 1] == NEWLINE {
        complete := true;
        break;
      }
    }
    r := ReadResult(line, bytesRead, complete, discarded, interrupted);
    ReadEnds(data, start, device.pos, r);
  }

  /** However the device cuts its chunks, an uninterrupted read has one possible result. */
  lemma ReadIsChunkIndependent(data: seq<Byte>, start: nat, e1: nat, r1: ReadResult, e2: nat, r2: ReadResult)
    requires ReadOutcome(data, start, e1, r1) && !r1.interrupted
    requires ReadOutcome(data, start, e2, r2) && !r2.interrupted
    ensures e1 == e2 && r1 == r2
  {
  }

  // ---------- One scan of a file ----------

  const SCAN_BUDGET := 256 * 1024 * 1024

  datatype ScanEnd = Finished | Interrupted | RolledBack

  /** `records` and then `rest`, an unterminated last line, went to the parser; `skipped`
      tells that an oversized record was passed over, at least in part. */
  datatype Scan = Scan(records: seq<Line>, rest: Option<Line>, safeOffset: nat, skipped: bool, end: ScanEnd)

  /** The cursor moves forward; unless something was skipped, over nothing but the records. */
  ghost predicate ReadUpTo(data: seq<Byte>, start: nat, scan: Scan) {
    && start <= scan.safeOffset <= |data|
    && (!scan.skipped ==> data[start..scan.safeOffset] == Flatten(scan.records))
  }

  /** The unterminated last line starts at the cursor and is small enough to be parsed. */
  predicate IsRest(data: seq<Byte>, cursor: nat, rest: Line)
    requires cursor <= |data|
  {
    rest == data[cursor..] && rest != [] && |rest| <= MAX_RECORD_BYTES && Unbroken(rest, 0, |rest|)
  }

  /** What the scan guarantees when it started at a safe cursor. */
  ghost predicate ScanOutcome(data: seq<Byte>, start: nat, scan: Scan)
  {
    && ReadUpTo(data, start, scan)
    && SafeCursor(data[..scan.safeOffset])
    && Kept(data[..scan.safeOffset]) == Kept(data[..start]) + scan.records
    && (scan.end == Finished ==> Kept(data[..scan.safeOffset]) == Kept(data))
    && (scan.rest.Some? ==>
          scan.end == Finished && IsRest(data, scan.safeOffset, scan.rest.value) && scan.rest.value == SplitOf(data).tail)
    && (scan.end == Finished && scan.rest.None? ==> scan.safeOffset == |data|)
  }

  /** One read moves a safe cursor to a safe cursor and yields the record it passed, if kept. */
  lemma ReadKeeps(data: seq<Byte>, start: nat, end: nat, r: ReadResult)
    requires ReadOutcome(data, start, end, r) && SafeCursor(data[..start])
    ensures SplitOf(data[..end]).tail == if r.complete then [] else SplitOf(data[..start]).tail + data[start..end]
    ensures Kept(data[..end]) == Kept(data[..start]) + if r.complete && !r.discarded then [r.line] else []
    ensures r.discarded || r.complete ==> SafeCursor(data[..end])
    ensures !r.discarded && !r.complete ==> SplitOf(data[..end]).tail == r.line
  {
    var before, t := SplitOf(data[..start]).tail, data[start..end];
    ReadExtends(data, start, end);
    if before == [] {
      assert before + t == t;
    }
  }

  lemma ReadExtends(data: seq<Byte>, start: nat, end: nat)
    requires start <= end <= |data| && Unbroken(data, start, end - 1)
    ensures
      var t := data[start..end];
      && EndsLine(t) == (end > start && data[end - 1] == NEWLINE)
      && SplitOf(data[..end]).tail == (if EndsLine(t) then [] else SplitOf(data[..start]).tail + t)
      && Kept(data[..end]) == Kept(data[..start])
           + if EndsLine(t) && |SplitOf(data[..start]).tail + t| <= MAX_RECORD_BYTES
             then [SplitOf(data[..start]).tail + t] else []
  {
    var t := data[start..end];
    assert data[..end] == data[..start] + t;
    KeptExtend(data[..start], t);
    hide SplitOf, Kept;
  }

  /** A complete record that was not discarded extends what was read. */
  lemma RecordEnds(data: seq<Byte>, start: nat, from: nat, end: nat, records: seq<Line>, r: ReadResult)
    requires start <= from && ReadOutcome(data, from, end, r) && r.complete && !r.discarded
    ensures data[start..from] == Flatten(records) ==> data[start..end] == Flatten(records + [r.line])
  {
    assert (records + [r.line])[..|records|] == records;
    assert data[start..end] == data[start..from] + data[from..end];
  }

  /** The loop's progress: what lies before the cursor, and an unterminated rest at the end. */
  ghost predicate Passed(data: seq<Byte>, start: nat, pos: nat, records: seq<Line>, rest: Option<Line>, safeOffset: nat,
                         skipped: bool)
  {
    && start <= safeOffset <= pos <= |data|
    && (!skipped ==> data[start..safeOffset] == Flatten(records))
    && (rest.None? ==> safeOffset == pos)
    && (rest.Some? ==> pos == |data| && rest.value != [])
  }

  ghost predicate PassedSafely(data: seq<Byte>, start: nat, pos: nat, records: seq<Line>, rest: Option<Line>, safeOffset: nat)
    requires start <= safeOffset <= pos <= |data|
  {
    && SafeCursor(data[..safeOffset])
    && Kept(data[..safeOffset]) == Kept(data[..start]) + records
    && (rest.Some? ==> Kept(data[..pos]) == Kept(data[..safeOffset]) && SplitOf(data[..pos]).tail == rest.value)
    && (rest.Some? && pos == |data| ==> IsRest(data, safeOffset, rest.value))
  }

  lemma NothingPassed(data: seq<Byte>, start: nat)
    requires start <= |data|
    ensures Passed(data, start, start, [], None, start, false)
    ensures SafeCursor(data[..start]) ==> PassedSafely(data, start, start, [], None, start)
  {
    assert Kept(data[..start]) + [] == Kept(data[..start]);
  }

  function RecordsAfter(records: seq<Line>, r: ReadResult): seq<Line> {
    if r.complete && !r.discarded then records + [r.line] else records
  }

  function RestAfter(r: ReadResult): Option<Line> {
    if !r.complete && !r.discarded then Some(r.line) else None
  }

  function OffsetAfter(from: nat, end: nat, r: ReadResult): nat {
    if r.discarded || r.complete then end else from
  }

  lemma ReadPasses(data: seq<Byte>, start: nat, from: nat, end: nat, records: seq<Line>, skipped: bool, r: ReadResult)
    requires Passed(data, start, from, records, None, from, skipped) && from < |data|
    requires ReadOutcome(data, from, end, r) && !r.interrupted
    ensures Passed(data, start, end, RecordsAfter(records, r), RestAfter(r), OffsetAfter(from, end, r), skipped || r.discarded)
  {
    if r.complete && !r.discarded {
      RecordEnds(data, start, from, end, records, r);
    }
  }

  lemma ReadPassesSafely(data: seq<Byte>, start: nat, from: nat, end: nat, records: seq<Line>, r: ReadResult)
    requires start <= from < |data| && PassedSafely(data, start, from, records, None, from)
    requires ReadOutcome(data, from, end, r) && !r.interrupted
    ensures PassedSafely(data, start, end, RecordsAfter(records, r), RestAfter(r), OffsetAfter(from, end, r))
  {
    ReadKeeps(data, from, end, r);
    if r.complete || r.discarded {
      var now := if r.complete && !r.discarded then [r.line] else [];
      assert Kept(data[..end]) == Kept(data[..start]) + (records + now);
      assert records + [] == records;
    } else {
      ReadsRest(data, from, r);
      assert Kept(data[..end]) == Kept(data[..from]);
    }
  }

  lemma ReadsRest(data: seq<Byte>, from: nat, r: ReadResult)
    requires from < |data| && ReadOutcome(data, from, |data|, r) && !r.complete && !r.discarded
    ensures IsRest(data, from, r.line)
  {
    assert data[from..|data|] == data[from..];
  }

  /** An interruption keeps the cursor, unless part of an oversized record was passed over. */
  lemma InterruptionOutcome(data: seq<Byte>, start: nat, from: nat, end: nat, records: seq<Line>, skipped: bool, r: ReadResult)
    requires Passed(data, start, from, records, None, from, skipped) && r.interrupted
    requires ReadOutcome(data, from, end, r) || (end == from && !r.complete && !r.discarded)
    ensures
      var scan := Scan(records, None, OffsetAfter(from, end, r), skipped || r.discarded, Interrupted);
      ReadUpTo(data, start, scan) && (PassedSafely(data, start, from, records, None, from) ==> ScanOutcome(data, start, scan))
  {
    if r.discarded && SafeCursor(data[..from]) {
      ReadKeeps(data, from, end, r);
    }
  }

  lemma FinishedOutcome(data: seq<Byte>, start: nat, records: seq<Line>, rest: Option<Line>, safeOffset: nat, skipped: bool)
    requires Passed(data, start, |data|, records, rest, safeOffset, skipped)
    ensures
      var scan := Scan(records, rest, safeOffset, skipped, Finished);
      ReadUpTo(data, start, scan) && (PassedSafely(data, start, |data|, records, rest, safeOffset) ==> ScanOutcome(data, start, scan))
  {
    assert data[..|data|] == data;
  }

  /** Reading on from `start` begins inside a record or comes to an oversized one. */
  ghost predicate PassesOver(data: seq<Byte>, start: nat)
    requires start <= |data|
  {
    SplitOf(data[..start]).tail != [] || exists i :: IsOversized(data, start, i)
  }

  ghost predicate IsOversized(data: seq<Byte>, start: nat, i: int) {
    start <= i && i + MAX_RECORD_BYTES < |data| && Unbroken(data, i, i + MAX_RECORD_BYTES)
  }

  lemma DiscardPassesOver(data: seq<Byte>, start: nat, from: nat, end: nat, r: ReadResult)
    requires start <= from < |data| && (from == start || data[from - 1] == NEWLINE)
    requires ReadOutcome(data, from, end, r) && r.discarded
    ensures PassesOver(data, start)
  {
    TailEmptyIff(data[..from]);
    if from > start || SplitOf(data[..start]).tail == [] {
      assert IsOversized(data, start, from);
    }
  }

  lemma SupersededOutcome(data: seq<Byte>, start: nat, pos: nat, records: seq<Line>, safeOffset: nat, skipped: bool)
    requires Passed(data, start, pos, records, None, safeOffset, skipped)
    ensures
      var scan := Scan(records, None, safeOffset, skipped, RolledBack);
      ReadUpTo(data, start, scan) && (PassedSafely(data, start, pos, records, None, safeOffset) ==> ScanOutcome(data, start, scan))
  {}

  /** The import loop of one file, from the device's position on. */
  method ScanFile(device: Device, bytesBefore: nat) returns (scan: Scan, bytesRead: nat)
    requires device.Valid()
    modifies device
    ensures device.Valid()
    ensures ReadUpTo(device.data, old(device.pos), scan)
    ensures SafeCursor(device.data[..old(device.pos)]) ==> ScanOutcome(device.data, old(device.pos), scan)
    // Only a disturbance or a used-up budget ends a scan early, and with one record's budget
    // left an undisturbed one advances.
    ensures scan.end == Interrupted ==> device.disturbed || bytesRead >= 268_435_456
    ensures scan.end == RolledBack ==> device.disturbed
    ensures !device.disturbed && scan.end == Interrupted && bytesBefore + MAX_RECORD_BYTES < SCAN_BUDGET
            ==> scan.safeOffset > old(device.pos)
    ensures scan.skipped ==> PassesOver(device.data, old(device.pos))
  {
    hide SplitOf, Kept, SafeCursor, PassesOver, PassedSafely, ScanOutcome, Flatten;
    var start := device.pos;
    ghost var data := device.data;
    var records, rest, safeOffset, skipped := [], None, start, false;
    bytesRead := bytesBefore;
    NothingPassed(data, start);
    while device.pos < |device.data|
      invariant device.Valid()
      invariant bytesRead == bytesBefore + device.pos - start
      invariant device.pos == start || device.pos == |data| || data[device.pos - 1] == NEWLINE
      invariant skipped ==> PassesOver(data, start)
      invariant Passed(data, start, device.pos, records, rest, safeOffset, skipped)
      invariant SafeCursor(data[..start]) ==> PassedSafely(data, start, device.pos, records, rest, safeOffset)
      decreases |device.data| - device.pos, rest.None?
    {
      var superseded := device.IsCancelled();
      if superseded {
        SupersededOutcome(data, start, device.pos, records, safeOffset, skipped);
        return Scan(records, rest, safeOffset, skipped, RolledBack), bytesRead;
      }
      var from := device.pos;
      var r := ReadRecord(device, SCAN_BUDGET - bytesRead);
      bytesRead := bytesRead + r.bytesRead;
      if r.discarded {
        DiscardPassesOver(data, start, from, device.pos, r);
      }
      if r.interrupted {
        InterruptionOutcome(data, start, from, device.pos, records, skipped, r);
        return Scan(records, rest, if r.discarded || r.complete then device.pos else safeOffset, skipped || r.discarded, Interrupted),
               bytesRead;
      }
      ReadPasses(data, start, from, device.pos, records, skipped, r);
      if SafeCursor(data[..start]) {
        ReadPassesSafely(data, start, from, device.pos, records, r);
      }
      skipped := skipped || r.discarded;
      if r.discarded || r.complete {
        safeOffset := device.pos;
      }
      if !r.discarded {
        if r.complete {
          records := records + [r.line];
        } else {
          rest := Some(r.line);
        }
      }
    }
    FinishedOutcome(data, start, records, rest, safeOffset, skipped);
    scan := Scan(records, rest, safeOffset, skipped, Finished);
  }

  // ---------- Longer prefixes, and the line at a cursor ----------

  lemma {:induction false} DoneGrows(s: seq<Byte>, t: seq<Byte>)
    ensures SplitOf(s).done <= SplitOf(s + t).done
  {
    if t == [] {
      assert s + t == s;
    } else {
      assert (s + t)[..|s + t| - 1] == s + t[..|t| - 1];
      DoneGrows(s, t[..|t| - 1]);
    }
  }

  lemma {:induction false} SmallGrows(a: seq<Line>, b: seq<Line>)
    requires a <= b
    ensures Small(a) <= Small(b)
  {
    if |a| < |b| {
      SmallGrows(a, b[..|b| - 1]);
    } else {
      assert a == b;
    }
  }

  /** Longer prefixes have more records. */
  lemma KeptGrows(data: seq<Byte>, a: nat, b: nat)
    requires a <= b <= |data|
    ensures Kept(data[..a]) <= Kept(data[..b])
  {
    assert data[..b] == data[..a] + data[a..b];
    DoneGrows(data[..a], data[a..b]);
    SmallGrows(SplitOf(data[..a]).done, SplitOf(data[..b]).done);
  }

  /** An unterminated last line of permitted size starts at the start of a line. */
  lemma RestStartsLine(data: seq<Byte>, cursor: nat, rest: Line)
    requires cursor <= |data| && IsRest(data, cursor, rest) && SafeCursor(data[..cursor]) && SplitOf(data).tail == rest
    ensures SplitOf(data[..cursor]).tail == []
  {
    assert data == data[..cursor] + rest;
    KeptExtend(data[..cursor], rest);
  }

  /** The line that starts at `cursor`, terminated at `k`. */
  predicate IsLineAt(data: seq<Byte>, cursor: nat, k: int) {
    cursor < k <= |data| && IsRecord(data[cursor..k])
  }

  lemma NextNewline(data: seq<Byte>, from: nat, to: nat) returns (k: nat)
    requires from <= to <= |data|
    ensures from <= k <= to && Unbroken(data, from, k)
    ensures k < to ==> data[k] == NEWLINE
  {
    k := from;
    while k < to && data[k] != NEWLINE
      invariant from <= k <= to && Unbroken(data, from, k)
    {
      k := k + 1;
    }
  }

  /** A line of permitted size that starts at `cursor` is the next record. */
  lemma LineIsKept(data: seq<Byte>, cursor: nat, k: nat)
    requires IsLineAt(data, cursor, k) && SplitOf(data[..cursor]).tail == []
    ensures Kept(data[..k]) == Kept(data[..cursor]) + if k - cursor <= MAX_RECORD_BYTES then [data[cursor..k]] else []
    ensures SplitOf(data[..k]).tail == []
  {
    var line := data[cursor..k];
    assert data[..k] == data[..cursor] + line;
    assert [] + line == line;
    KeptExtend(data[..cursor], line);
  }

  /** Without a newline there is no further record. */
  lemma NoLineNoRecord(data: seq<Byte>, cursor: nat, to: nat)
    requires cursor <= to <= |data| && Unbroken(data, cursor, to)
    ensures Kept(data[..to]) == Kept(data[..cursor])
    ensures SplitOf(data[..to]).tail == SplitOf(data[..cursor]).tail + data[cursor..to]
  {
    var t := data[cursor..to];
    assert data[..to] == data[..cursor] + t;
    KeptExtend(data[..cursor], t);
    assert Kept(data[..cursor]) + [] == Kept(data[..cursor]);
  }

  /** Where records begin, the first one is the line at the cursor, unless that is oversized. */
  lemma FirstRecord(data: seq<Byte>, cursor: nat, to: nat, records: seq<Line>) returns (k: nat)
    requires cursor <= to <= |data| && SplitOf(data[..cursor]).tail == []
    requires Kept(data[..to]) == Kept(data[..cursor]) + records && records != []
    ensures k <= to && IsLineAt(data, cursor, k)
    ensures k - cursor <= MAX_RECORD_BYTES ==> records[0] == data[cursor..k]
  {
    var n := NextNewline(data, cursor, to);
    if n == to {
      NoLineNoRecord(data, cursor, to);
      assert false;
    }
    k := n + 1;
    var line := data[cursor..k];
    assert line[|line| - 1] == data[n] && Unbroken(line, 0, |line| - 1);
    LineIsKept(data, cursor, k);
    KeptGrows(data, k, to);
    if k - cursor <= MAX_RECORD_BYTES {
      assert Kept(data[..to])[|Kept(data[..cursor])|] == records[0];
    }
  }

  // ---------- Many scans of an append-only file ----------

  /** One scan together with the file contents it saw and the offset it started from. */
  datatype Visit = Visit(data: seq<Byte>, start: nat, scan: Scan) {
    predicate Committed() {
      !scan.end.RolledBack?
    }
  }

  /** The stored cursor after a history of scans. */
  function Cursor(history: seq<Visit>): nat {
    if history == [] then 0
    else
      var last := history[|history| - 1];
      if last.Committed() then last.scan.safeOffset else Cursor(history[..|history| - 1])
  }

  /** The terminated records of committed scans since the last scan from the beginning. */
  function Delivered(history: seq<Visit>): seq<Line> {
    if history == [] then []
    else
      var before, last := history[..|history| - 1], history[|history| - 1];
      if !last.Committed() then Delivered(before)
      else if last.start == 0 then last.scan.records
      else Delivered(before) + last.scan.records
  }

  /** Each scan starts from the stored cursor or starts over, and the file only grows. */
  ghost predicate IsHistory(history: seq<Visit>) {
    history != [] ==>
      var before, last := history[..|history| - 1], history[|history| - 1];
      && IsHistory(before)
      && (before != [] ==> before[|before| - 1].data <= last.data)
      && (last.start == 0 || last.start == Cursor(before))
      && last.start <= |last.data|
      && (SafeCursor(last.data[..last.start]) ==> ScanOutcome(last.data, last.start, last.scan))
  }

  /** The cursor is safe, and what was delivered is exactly the kept records before it, and
      all of the file's after a scan that finished. */
  ghost predicate AllDelivered(history: seq<Visit>)
    requires history != []
  {
    var last := history[|history| - 1];
    && Cursor(history) <= |last.data|
    && SafeCursor(last.data[..Cursor(history)])
    && Delivered(history) == Kept(last.data[..Cursor(history)])
    && (last.scan.end.Finished? ==> Delivered(history) == Kept(last.data))
  }

  /** Nothing is lost, split or delivered twice, over any history. */
  lemma {:induction false} DeliveredExactly(history: seq<Visit>)
    ensures IsHistory(history) && history != [] ==> AllDelivered(history)
  {
    if IsHistory(history) && history != [] {
      var before, last := history[..|history| - 1], history[|history| - 1];
      if before != [] {
        DeliveredExactly(before);
        var seen := before[|before| - 1].data;
        var cursor := Cursor(before);
        assert last.data[..cursor] == seen[..cursor] by {
          assert last.data[..|seen|] == seen;
        }
      }
      assert last.data[..0] == [];
    }
  }
}
