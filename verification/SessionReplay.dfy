/** Importing records again changes nothing: each imported record leaves marks that make
    its next import idle, and later records do not erase those marks. */
module SessionReplay {
  import opened Options
  import opened SessionStore

  /** The session row already covers this record. */
  predicate Seen(s: Store, row: Row) {
    && row.session in s.sessions
    && s.sessions[row.session].started <= row.At() <= s.sessions[row.session].lastSeen
  }

  /** The session is already degraded, if the record asks for it. */
  predicate Degraded(s: Store, row: Row, doubt: bool) {
    doubt ==> row.session in s.sessions && !s.sessions[row.session].coverage.Reported?
  }

  predicate SettledSnapshot(s: Store, row: Row, env: Env)
    requires row.Snapshot?
  {
    || env.Cleared(row.At())
    || row.Id() in s.events
    || (&& Seen(s, row)
        && Degraded(s, row, Outside(row, env) || row.lineageUnverified)
        && (row.lineageUnverified
            || (&& row.session in s.counters
                && (s.counters[row.session].at > row.At() || Repeats(row.tokens, s.counters[row.session].tokens)))))
  }

  predicate Includes(e: Event, row: Row) {
    e.model == row.model && Repeats(row.tokens, e.tokens)
  }

  predicate SettledMessage(s: Store, row: Row, env: Env)
    requires row.Message?
  {
    || env.Cleared(row.At())
    || (row.message.None? && Seen(s, row) && Degraded(s, row, true))
    || (row.message.Some?
        && (|| Outside(row, env)
            || row.Id() in s.conflicts
            || (&& row.Id() in s.events && Includes(s.events[row.Id()], row)
                && Seen(s, row) && Degraded(s, row, row.usagePartial))))
  }

  /** The record's effect is already in the store. */
  predicate Settled(s: Store, item: Item) {
    if item.row.Snapshot? then SettledSnapshot(s, item.row, item.env) else SettledMessage(s, item.row, item.env)
  }

  lemma SettledIsIdle(s: Store, item: Item)
    requires Settled(s, item)
    ensures Import(s, item) == s
  {
    var row := item.row;
    if Seen(s, row) {
      assert Touch(s.sessions, row) == s.sessions;
    }
    if row.Message? && row.message.Some? && row.Id() in s.events && Includes(s.events[row.Id()], row) {
      assert s.events[row.Id()].tokens + row.tokens == s.events[row.Id()].tokens;
      assert s.events[row.Id() := s.events[row.Id()]] == s.events;
    }
  }

  /** Whatever was saved before, the counter afterwards is later than the snapshot or has all
      its values. */
  lemma CounterAfter(s: Store, row: Row, env: Env)
    requires row.Snapshot? && !env.Cleared(row.At()) && row.Id() !in s.events && !row.lineageUnverified
    ensures
      var later := ImportSnapshot(s, row, env);
      && row.session in later.counters
      && (if row.session in s.counters && s.counters[row.session].at > row.At()
          then later.counters[row.session] == s.counters[row.session]
          else && Repeats(row.tokens, later.counters[row.session].tokens)
               && later.counters[row.session].at <= row.At()
               && later.counters[row.session].tokens
                  == (if row.session in s.counters then s.counters[row.session].tokens else map[]) + row.tokens)
  {
    if row.session in s.counters && Repeats(row.tokens, s.counters[row.session].tokens) {
      assert s.counters[row.session].tokens + row.tokens == s.counters[row.session].tokens;
    }
    assert map[] + row.tokens == row.tokens;
  }

  lemma SnapshotSettles(s: Store, row: Row, env: Env)
    requires row.Snapshot?
    ensures SettledSnapshot(ImportSnapshot(s, row, env), row, env)
  {
    if !env.Cleared(row.At()) && row.Id() !in s.events {
      SnapshotIsSeen(s, row, env);
      if !row.lineageUnverified {
        CounterAfter(s, row, env);
      }
      hide ImportSnapshot;
    }
  }

  /** The session covers the snapshot, and doubts are marked. */
  lemma SnapshotIsSeen(s: Store, row: Row, env: Env)
    requires row.Snapshot? && !env.Cleared(row.At()) && row.Id() !in s.events
    ensures Seen(ImportSnapshot(s, row, env), row)
    ensures Degraded(ImportSnapshot(s, row, env), row, Outside(row, env) || row.lineageUnverified)
  {
    hide Judge, LeavesEvent;
  }

  lemma MessageSettles(s: Store, row: Row, env: Env)
    requires row.Message?
    ensures SettledMessage(ImportMessage(s, row, env), row, env)
  {}

  // ---------- Later records keep it settled ----------

  /** Codex records of one session come with strictly increasing timestamps. */
  predicate Follows(later: Row, row: Row) {
    later.Snapshot? && row.Snapshot? && later.session == row.session ==> later.At() > row.At()
  }

  /** Session rows only widen and only degrade. */
  ghost predicate Grows(sessions: map<SessionId, Session>, later: map<SessionId, Session>) {
    forall k :: k in sessions ==>
      && k in later
      && later[k].started <= sessions[k].started
      && sessions[k].lastSeen <= later[k].lastSeen
      && (later[k].coverage.Reported? ==> sessions[k].coverage.Reported?)
  }

  lemma TouchGrows(sessions: map<SessionId, Session>, row: Row)
    ensures Grows(sessions, Touch(sessions, row))
  {}

  lemma MarkGrows(sessions: map<SessionId, Session>, later: map<SessionId, Session>, session: SessionId, coverage: Coverage)
    requires Grows(sessions, later)
    ensures coverage.Reported? || Grows(sessions, Mark(later, session, coverage))
    ensures coverage.Reported? || Grows(sessions, Force(later, session, coverage))
  {}

  lemma SnapshotGrows(s: Store, row: Row, env: Env)
    requires row.Snapshot?
    ensures Grows(s.sessions, ImportSnapshot(s, row, env).sessions)
  {
    hide Judge, LeavesEvent, Touch, Mark, Force;
    var touched := Touch(s.sessions, row);
    TouchGrows(s.sessions, row);
    MarkGrows(s.sessions, touched, row.session, PartialRetention);
    var marked := MarkIf(touched, Outside(row, env), row.session, PartialRetention);
    MarkGrows(s.sessions, marked, row.session, PartialLineage);
    MarkGrows(s.sessions, marked, row.session, PartialRebaseline);
    MarkGrows(s.sessions, marked, row.session, PartialReset);
  }

  lemma MessageGrows(s: Store, row: Row, env: Env)
    requires row.Message?
    ensures Grows(s.sessions, ImportMessage(s, row, env).sessions)
  {
    var touched := Touch(s.sessions, row);
    TouchGrows(s.sessions, row);
    if row.message.None? {
      MarkGrows(s.sessions, touched, row.session, PartialRetention);
      MarkGrows(s.sessions, MarkIf(touched, Outside(row, env), row.session, PartialRetention), row.session, PartialIdentity);
    } else if Contradicts(s, row) {
      MarkGrows(s.sessions, touched, row.session, PartialConflict);
    } else {
      MarkGrows(s.sessions, touched, row.session, PartialUsage);
    }
  }

  lemma ImportGrows(s: Store, item: Item)
    ensures Grows(s.sessions, Import(s, item).sessions)
  {
    if item.row.Snapshot? {
      SnapshotGrows(s, item.row, item.env);
    } else {
      MessageGrows(s, item.row, item.env);
    }
  }

  lemma SettledSnapshotStays(s: Store, row: Row, env: Env, item: Item)
    requires row.Snapshot? && SettledSnapshot(s, row, env) && Follows(item.row, row)
    ensures SettledSnapshot(Import(s, item), row, env)
  {
    ImportGrows(s, item);
    hide LeavesEvent, Touch, Mark, MarkIf, Force;
  }

  /** A message's event can only gain fields or be quarantined. */
  ghost predicate KeepsMessages(s: Store, later: Store) {
    && s.conflicts <= later.conflicts
    && forall id: EventId :: id.MessageId? && id in s.events ==>
         || (id in later.events && later.events[id].model == s.events[id].model
             && Repeats(s.events[id].tokens, later.events[id].tokens))
         || id in later.conflicts
  }

  lemma SnapshotKeepsMessages(s: Store, row: Row, env: Env)
    requires row.Snapshot?
    ensures KeepsMessages(s, ImportSnapshot(s, row, env))
  {
    hide Judge, LeavesEvent, Touch, Mark, MarkIf, Force;
  }

  lemma MessageKeepsMessages(s: Store, row: Row, env: Env)
    requires row.Message?
    ensures KeepsMessages(s, ImportMessage(s, row, env))
  {
    hide Touch, Mark, MarkIf;
  }

  lemma SettledMessageStays(s: Store, row: Row, env: Env, item: Item)
    requires row.Message? && SettledMessage(s, row, env)
    ensures SettledMessage(Import(s, item), row, env)
  {
    ImportGrows(s, item);
    if item.row.Snapshot? {
      SnapshotKeepsMessages(s, item.row, item.env);
    } else {
      MessageKeepsMessages(s, item.row, item.env);
    }
    hide ImportSnapshot, ImportMessage;
  }

  ghost predicate Chronological(items: seq<Item>) {
    forall i, j :: 0 <= i < j < |items| ==> Follows(items[j].row, items[i].row)
  }

  lemma {:induction false} AllSettled(s: Store, items: seq<Item>)
    requires Chronological(items)
    ensures forall i :: 0 <= i < |items| ==> Settled(ImportAll(s, items), items[i])
  {
    if items != [] {
      var init, last := items[..|items| - 1], items[|items| - 1];
      var before := ImportAll(s, init);
      AllSettled(s, init);
      forall i | 0 <= i < |items|
        ensures Settled(ImportAll(s, items), items[i])
      {
        if i == |items| - 1 {
          if last.row.Snapshot? {
            SnapshotSettles(before, last.row, last.env);
          } else {
            MessageSettles(before, last.row, last.env);
          }
        } else {
          assert items[i] == init[i];
          if items[i].row.Snapshot? {
            SettledSnapshotStays(before, items[i].row, items[i].env, last);
          } else {
            SettledMessageStays(before, items[i].row, items[i].env, last);
          }
        }
      }
    }
  }

  /** Replaying any of the imported records, in any order and any number of times, leaves
      the whole store unchanged. */
  lemma ReplayIsHarmless(s: Store, items: seq<Item>, again: seq<Item>)
    requires Chronological(items)
    requires forall item :: item in again ==> item in items
    ensures ImportAll(ImportAll(s, items), again) == ImportAll(s, items)
  {
    AllSettled(s, items);
    SettledReplay(ImportAll(s, items), items, again);
  }

  // ---------- Snapshots of one instant ----------

  predicate Agree(a: Tokens, b: Tokens) {
    forall f :: f in a && f in b ==> a[f] == b[f]
  }

  /** Two snapshots of one session and instant, one of which is refused or stored as an event,
      or which are too old to count, or which agree where both have a field. */
  predicate HarmlessPair(s: Store, a: Row, b: Row, env: Env)
    requires a.Snapshot? && b.Snapshot?
  {
    || env.Cleared(a.At())
    || a.lineageUnverified || b.lineageUnverified
    || a.Id() in s.events || b.Id() in s.events
    || LeavesEvent(Judge(a, Saved(s, a.session), env), a, env)
    || (a.session in s.counters && s.counters[a.session].at > a.At())
    || Agree(a.tokens, b.tokens)
  }

  predicate SameInstant(a: Row, b: Row) {
    a.Snapshot? && b.Snapshot? && a.session == b.session && a.At() == b.At()
  }

  /** A snapshot that is skipped or of unverified lineage leaves counters alone, and none
      removes events. */
  lemma SkippedKeepsCounters(s: Store, row: Row, env: Env)
    requires row.Snapshot?
    ensures s.events.Keys <= ImportSnapshot(s, row, env).events.Keys
    ensures env.Cleared(row.At()) || row.Id() in s.events || row.lineageUnverified ==> ImportSnapshot(s, row, env).counters == s.counters
  {}

  /** The first one's counter is still there, later than it or with all its values. */
  lemma CounterStands(s: Store, a: Row, b: Row, env: Env)
    requires SameInstant(a, b) && HarmlessPair(s, a, b, env) && !env.Cleared(a.At()) && !a.lineageUnverified
    requires a.Id() !in ImportSnapshot(s, a, env).events
    ensures
      var counters := ImportSnapshot(ImportSnapshot(s, a, env), b, env).counters;
      a.session in counters && (counters[a.session].at > a.At() || Repeats(a.tokens, counters[a.session].tokens))
  {
    var first := ImportSnapshot(s, a, env);
    SkippedKeepsCounters(s, a, env);
    SkippedKeepsCounters(first, b, env);
    CounterAfter(s, a, env);
    EventAfter(s, a, env);
    hide ImportSnapshot, Judge, LeavesEvent;
    if b.Id() !in first.events && !b.lineageUnverified {
      CounterAfter(first, b, env);
    }
  }

  /** The first one is settled while no further snapshot counted. */
  lemma FirstSettles(s: Store, a: Row, b: Row, env: Env)
    requires SameInstant(a, b) && HarmlessPair(s, a, b, env)
    ensures SettledSnapshot(ImportSnapshot(ImportSnapshot(s, a, env), b, env), a, env)
  {
    var first := ImportSnapshot(s, a, env);
    SnapshotSettles(s, a, env);
    SnapshotGrows(first, b, env);
    SkippedKeepsCounters(first, b, env);
    if !env.Cleared(a.At()) && a.Id() !in first.events && !a.lineageUnverified {
      CounterStands(s, a, b, env);
    }
    hide ImportSnapshot, HarmlessPair;
  }

  lemma EventAfter(s: Store, row: Row, env: Env)
    requires row.Snapshot? && !env.Cleared(row.At()) && row.Id() !in s.events && !row.lineageUnverified
    ensures ImportSnapshot(s, row, env).events.Keys
            == s.events.Keys + if LeavesEvent(Judge(row, Saved(s, row.session), env), row, env) then {row.Id()} else {}
  {}

  /** Otherwise the second one overwrites the counter, and the first one overwrites it again. */
  lemma FirstOverwrites(s: Store, a: Row, b: Row, env: Env)
    requires SameInstant(a, b) && !HarmlessPair(s, a, b, env)
    ensures
      var both := ImportSnapshot(ImportSnapshot(s, a, env), b, env);
      ImportSnapshot(both, a, env).counters != both.counters
  {
    var first := ImportSnapshot(s, a, env);
    var both := ImportSnapshot(first, b, env);
    var f :| f in a.tokens && f in b.tokens && a.tokens[f] != b.tokens[f];
    EventAfter(s, a, env);
    CounterAfter(s, a, env);
    CounterAfter(first, b, env);
    EventAfter(first, b, env);
    assert a.Id() != b.Id();
    CounterAfter(both, a, env);
    assert both.counters[a.session].tokens[f] == b.tokens[f];
    assert ImportSnapshot(both, a, env).counters[a.session].tokens[f] == a.tokens[f];
  }

  /** Of two snapshots of one instant any replay is harmless if and only if the pair is. */
  lemma EqualTimesIff(s: Store, a: Row, b: Row, env: Env)
    requires SameInstant(a, b)
    ensures
      var items := [Item(a, env), Item(b, env)];
      HarmlessPair(s, a, b, env)
      <==> forall again: seq<Item> :: (forall item :: item in again ==> item in items)
                                      ==> ImportAll(ImportAll(s, items), again) == ImportAll(s, items)
  {
    var items := [Item(a, env), Item(b, env)];
    var both := ImportSnapshot(ImportSnapshot(s, a, env), b, env);
    TwoImports(s, items[0], items[1]);
    hide ImportSnapshot, SettledSnapshot, HarmlessPair;
    if HarmlessPair(s, a, b, env) {
      FirstSettles(s, a, b, env);
      SnapshotSettles(ImportSnapshot(s, a, env), b, env);
      forall again: seq<Item> | forall item :: item in again ==> item in items
        ensures ImportAll(both, again) == both
      {
        SettledReplay(both, items, again);
      }
    } else {
      FirstOverwrites(s, a, b, env);
      OneImport(both, items[0]);
    }
  }

  lemma OneImport(s: Store, item: Item)
    ensures ImportAll(s, [item]) == Import(s, item)
  {
    assert [item][..0] == [];
  }

  lemma TwoImports(s: Store, a: Item, b: Item)
    ensures ImportAll(s, [a, b]) == Import(Import(s, a), b)
  {
    OneImport(s, a);
    assert [a, b][..1] == [a];
  }

  lemma {:induction false} SettledReplay(s: Store, items: seq<Item>, again: seq<Item>)
    requires forall item :: item in items ==> Settled(s, item)
    requires forall item :: item in again ==> item in items
    ensures ImportAll(s, again) == s
  {
    if again != [] {
      var last := again[|again| - 1];
      assert last in again;
      SettledReplay(s, items, again[..|again| - 1]);
      SettledIsIdle(s, last);
    }
  }

  /** Such pairs exist: the replayed first one looks like a decrease. */
  lemma EqualTimesAreNotHarmless()
    ensures
      var env := Env(None, false, 10);
      var first := Snapshot("s", "p", Stamp(5, "a"), "m", map[Input := 1], false, None);
      var second := Snapshot("s", "p", Stamp(5, "b"), "m", map[Input := 2], false, None);
      SameInstant(first, second) && !HarmlessPair(Store(map[], map[], map[], {}, map[]), first, second, env)
  {
    assert map[Input := 1][Input] != map[Input := 2][Input];
  }
}
