/** The session database as an object that imports record after record. */
module SessionImporter {
  import opened Bounds
  import opened Options
  import opened SessionStore

  const COUNTER_FIELDS: seq<Field> := [Input, Output, CacheRead, CacheWrite]

  lemma EveryField(f: Field)
    ensures f in COUNTER_FIELDS
  {
    match f
    case Input => assert COUNTER_FIELDS[0] == f;
    case Output => assert COUNTER_FIELDS[1] == f;
    case CacheRead => assert COUNTER_FIELDS[2] == f;
    case CacheWrite => assert COUNTER_FIELDS[3] == f;
  }

  /** Compares a snapshot with a saved counter, field by field. `grown` holds the known
      fields' differences; when a field decreased it is of no use. */
  method CompareFields(tokens: Tokens, saved: Tokens) returns (same: bool, reset: bool, grown: Tokens)
    ensures same == Repeats(tokens, saved)
    ensures reset == Decreases(tokens, saved)
    ensures !reset ==> grown == Growth(tokens, saved)
  {
    same, reset, grown := true, false, tokens;
    for i := 0 to |COUNTER_FIELDS|
      invariant same <==> forall f :: f in tokens && f in COUNTER_FIELDS[..i] ==> f in saved && saved[f] == tokens[f]
      invariant reset <==> exists f :: f in tokens && f in COUNTER_FIELDS[..i] && f in saved && tokens[f] < saved[f]
      invariant forall f :: f in grown <==> f in tokens && (f in COUNTER_FIELDS[..i] ==> f in saved && tokens[f] >= saved[f])
      invariant forall f :: f in grown ==>
                  grown[f] == if f in COUNTER_FIELDS[..i] then tokens[f] - saved[f] else tokens[f]
    {
      var f := COUNTER_FIELDS[i];
      assert COUNTER_FIELDS[..i + 1] == COUNTER_FIELDS[..i] + [f];
      if f in tokens {
        if f !in saved {
          same := false;
          grown := grown - {f};
        } else {
          if tokens[f] != saved[f] {
            same := false;
          }
          if tokens[f] < saved[f] {
            reset := true;
            grown := grown - {f};
          } else {
            grown := grown[f := tokens[f] - saved[f]];
          }
        }
      }
    }
    assert COUNTER_FIELDS[..|COUNTER_FIELDS|] == COUNTER_FIELDS;
    forall f {
      EveryField(f);
    }
  }

  datatype FileKey = FileKey(tool: Tool, file: string)

  datatype FileMark = FileMark(offset: nat, size: nat, modified: string)

  /** The queue of new files or of changed ones, whose place a scan remembers. */
  datatype Queue = Queue(tool: Tool, changed: bool)

  class Importer {
    var sessions: map<SessionId, Session>
    var events: map<EventId, Event>
    var counters: map<SessionId, Counter>
    var conflicts: set<EventId>
    var cutoffs: map<Tool, Time>
    var checkpoints: map<FileKey, FileMark>
    var aliases: map<string, string>
    var scanCursors: map<Queue, string>

    ghost function View(): Store
      reads this
    {
      Store(sessions, events, counters, conflicts, cutoffs)
    }

    constructor ()
      ensures View() == Store(map[], map[], map[], {}, map[])
      ensures checkpoints == map[] && aliases == map[] && scanCursors == map[]
    {
      sessions, events, counters, conflicts, cutoffs := map[], map[], map[], {}, map[];
      checkpoints, aliases, scanCursors := map[], map[], map[];
    }

    /** Inserts the session or widens its time span. */
    method UpsertSession(row: Row)
      modifies this`sessions
      ensures sessions == Touch(old(sessions), row)
    {
      if row.session in sessions {
        var s := sessions[row.session];
        sessions := sessions[row.session := s.(started := Min(s.started, row.At()), lastSeen := Max(s.lastSeen, row.At()))];
      } else {
        var tool := if row.Snapshot? then Codex else ClaudeCode;
        sessions := sessions[row.session := Session(tool, row.project, row.At(), row.At(), Reported)];
      }
    }

    method MarkReported(session: SessionId, coverage: Coverage)
      modifies this`sessions
      ensures sessions == Mark(old(sessions), session, coverage)
    {
      if session in sessions && sessions[session].coverage.Reported? {
        sessions := sessions[session := sessions[session].(coverage := coverage)];
      }
    }

    /** The delta logic for one cumulative snapshot. */
    method CountSnapshot(row: Row, env: Env)
      requires row.Snapshot?
      modifies this`sessions, this`events, this`counters, this`conflicts
      ensures View() == Count(old(View()), row, env)
    {
      var previous := if row.session in counters then Some(counters[row.session]) else None;
      if previous.Some? && previous.value.at > row.At() {
        return;
      }
      var saved := if previous.Some? then previous.value.tokens else map[];
      var same, reset, values := CompareFields(row.tokens, saved);
      if previous.Some? && same {
        return;
      }
      var baselineOnly := previous.None? && env.Rebaselining() && !CreatedAfterClear(row, env);
      if previous.None? {
        values := row.tokens;
      }
      if baselineOnly {
        values := map[];
        sessions := Force(sessions, row.session, PartialRebaseline);
      }
      if reset {
        values := map[];
        sessions := Force(sessions, row.session, PartialReset);
      }
      counters := counters[row.session := Counter(row.At(), saved + row.tokens)];
      if !(Outside(row, env) || (env.Rebaselining() && values == map[])) {
        events := events[row.Id() := Event(row.session, row.At(), row.model, values)];
      }
    }

    method ImportSnapshotRow(row: Row, env: Env)
      requires row.Snapshot?
      modifies this`sessions, this`events, this`counters, this`conflicts
      ensures View() == ImportSnapshot(old(View()), row, env)
    {
      if env.Cleared(row.At()) || row.Id() in events {
        return;
      }
      UpsertSession(row);
      if Outside(row, env) {
        MarkReported(row.session, PartialRetention);
      }
      if row.lineageUnverified {
        MarkReported(row.session, PartialLineage);
      } else {
        CountSnapshot(row, env);
      }
    }

    method ImportMessageRow(row: Row, env: Env)
      requires row.Message?
      modifies this`sessions, this`events, this`counters, this`conflicts
      ensures View() == ImportMessage(old(View()), row, env)
    {
      if env.Cleared(row.At()) || (Outside(row, env) && row.message.Some?) {
        return;
      }
      if row.message.None? {
        UpsertSession(row);
        if Outside(row, env) {
          MarkReported(row.session, PartialRetention);
        }
        MarkReported(row.session, PartialIdentity);
        return;
      }
      if row.Id() in conflicts {
        return;
      }
      var contradiction := row.Id() in events && Disagree(row.model, row.tokens, events[row.Id()].model, events[row.Id()].tokens);
      UpsertSession(row);
      if contradiction {
        conflicts := conflicts + {row.Id()};
        events := events - {row.Id()};
        MarkReported(row.session, PartialConflict);
        return;
      }
      if row.usagePartial {
        MarkReported(row.session, PartialUsage);
      }
      if row.Id() in events {
        var e := events[row.Id()];
        events := events[row.Id() := e.(tokens := e.tokens + row.tokens)];
      } else {
        events := events[row.Id() := Event(row.session, row.At(), row.model, row.tokens)];
      }
    }

    /** Imports the records of one file visit in order. */
    method ImportRecords(items: seq<Item>)
      modifies this`sessions, this`events, this`counters, this`conflicts
      ensures View() == ImportAll(old(View()), items)
    {
      ghost var start := View();
      for i := 0 to |items|
        invariant View() == ImportAll(start, items[..i])
      {
        assert items[..i + 1][..i] == items[..i];
        if items[i].row.Snapshot? {
          ImportSnapshotRow(items[i].row, items[i].env);
        } else {
          ImportMessageRow(items[i].row, items[i].env);
        }
      }
      assert items[..|items|] == items;
    }

    /** Remembers how far a file was imported, in the transaction of its records. */
    method RecordCheckpoint(key: FileKey, mark: FileMark)
      modifies this`checkpoints
      ensures checkpoints == old(checkpoints)[key := mark]
    {
      checkpoints := checkpoints[key := mark];
    }

    /** Clearing empties every table and forgets where files and queues stood; what remains
        is when it happened. */
    method ClearSessions(now: Time)
      modifies this
      ensures View() == Clear(old(View()), now)
      ensures checkpoints == map[] && aliases == map[] && scanCursors == map[]
    {
      sessions, events, counters, conflicts := map[], map[], map[], {};
      checkpoints, aliases := map[], map[];
      cutoffs := cutoffs[Codex := now];
      cutoffs := cutoffs[ClaudeCode := now];
      scanCursors := scanCursors - {Queue(Codex, false), Queue(ClaudeCode, false)};
      scanCursors := scanCursors - {Queue(Codex, true), Queue(ClaudeCode, true)};
      forall q: Queue
        ensures q !in scanCursors
      {
        assert q == Queue(q.tool, q.changed);
        assert q.tool == Codex || q.tool == ClaudeCode;
      }
    }

    /** Marks sessions that lose events, then deletes events, then sessions with theirs. */
    method TrimRetention(before: Time)
      modifies this`sessions, this`events, this`counters
      ensures View() == Trim(old(View()), before)
    {
      var trimmed := set id | id in events && events[id].at < before :: events[id].session;
      sessions := map k | k in sessions :: if k in trimmed then sessions[k].(coverage := PartialRetention) else sessions[k];
      events := map id | id in events && events[id].at >= before :: events[id];
      sessions := map k | k in sessions && sessions[k].lastSeen >= before :: sessions[k];
      CascadeDelete();
    }

    method CascadeDelete()
      modifies this`events, this`counters
      ensures View() == Cascade(old(View()))
    {
      events := map id | id in events && events[id].session in sessions :: events[id];
      counters := map k | k in counters && k in sessions :: counters[k];
    }
  }
}
