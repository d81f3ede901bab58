/** The stored usage of a Codex session adds up to its saved counter. */
module SessionLedger {
  import opened Options
  import opened SessionStore

  // ---------- Sums over the event table ----------

  function Share(id: EventId, e: Event, session: SessionId, f: Field): int {
    if id.SnapshotId? && e.session == session && f in e.tokens then e.tokens[f] else 0
  }

  /** The total of one field over a session's snapshot events. */
  ghost function Stored(events: map<EventId, Event>, session: SessionId, f: Field): int {
    if events == map[] then 0
    else
      var id :| id in events;
      Share(id, events[id], session, f) + Stored(events - {id}, session, f)
  }

  lemma {:induction false} StoredWithout(events: map<EventId, Event>, id: EventId, session: SessionId, f: Field)
    requires id in events
    ensures Stored(events, session, f) == Share(id, events[id], session, f) + Stored(events - {id}, session, f)
    decreases events.Keys
  {
    var pick :| pick in events && Stored(events, session, f)
                                  == Share(pick, events[pick], session, f) + Stored(events - {pick}, session, f);
    if pick != id {
      StoredWithout(events - {pick}, id, session, f);
      StoredWithout(events - {id}, pick, session, f);
      assert events - {pick} - {id} == events - {id} - {pick};
    }
  }

  lemma StoredInsert(events: map<EventId, Event>, id: EventId, e: Event, session: SessionId, f: Field)
    requires id !in events
    ensures Stored(events[id := e], session, f) == Stored(events, session, f) + Share(id, e, session, f)
  {
    StoredWithout(events[id := e], id, session, f);
    assert events[id := e] - {id} == events;
  }

  /** Writing or removing a message leaves every session's snapshot total alone. */
  lemma StoredIgnoresMessages(events: map<EventId, Event>, id: EventId, e: Event, session: SessionId, f: Field)
    requires id.MessageId?
    ensures Stored(events[id := e], session, f) == Stored(events, session, f)
    ensures Stored(events - {id}, session, f) == Stored(events, session, f)
  {
    if id in events {
      StoredWithout(events, id, session, f);
      StoredWithout(events[id := e], id, session, f);
      assert events[id := e] - {id} == events - {id};
    } else {
      StoredInsert(events, id, e, session, f);
      assert events - {id} == events;
    }
  }

  // ---------- One record ----------

  predicate Known(s: Store, session: SessionId, f: Field) {
    session in s.counters && f in s.counters[session].tokens
  }

  /** A snapshot of the session that is later than the cutoff, has no event yet and no doubtful lineage. */
  predicate Counted(s: Store, item: Item, session: SessionId) {
    && item.row.Snapshot? && item.row.session == session
    && !(item.env.cutoff.Some? && item.row.stamp.at <= item.env.cutoff.value)
    && SnapshotId(session, item.row.stamp, item.row.tokens) !in s.events
    && !item.row.lineageUnverified
  }

  /** The record saves a new counter for this session: its first one, or one that is not older
      and differs in some field. */
  predicate Saves(s: Store, item: Item, session: SessionId) {
    && Counted(s, item, session)
    && (session in s.counters ==>
          && s.counters[session].at <= item.row.stamp.at
          && exists f :: f in item.row.tokens
                         && !(f in s.counters[session].tokens && s.counters[session].tokens[f] == item.row.tokens[f]))
  }

  /** Some field lies below the saved counter. */
  predicate Falls(s: Store, item: Item, session: SessionId) {
    && session in s.counters
    && exists f :: f in item.row.tokens && f in s.counters[session].tokens
                   && item.row.tokens[f] < s.counters[session].tokens[f]
  }

  /** The record falls below the saved counter, or is too old to store. */
  predicate Disturbs(s: Store, item: Item, session: SessionId) {
    Saves(s, item, session) && (item.row.stamp.at < item.env.boundary || Falls(s, item, session))
  }

  /** A session's first counted snapshot counts from zero if nothing was cleared, or if the
      session's own metadata proves that it was created since. */
  predicate StartsAtZero(item: Item)
    requires item.row.Snapshot?
  {
    || (item.env.cutoff.None? && !item.env.flagged)
    || (&& item.row.created.Some? && item.row.created.value <= item.row.stamp.at
        && (item.env.cutoff.Some? ==> item.row.created.value > item.env.cutoff.value))
  }

  /** Where a field's count starts: at zero when the session's first counted snapshot has it,
      at its first value when a rebaseline applied or the field came later. */
  function Start(s: Store, item: Item, session: SessionId, f: Field): int
    requires item.row.Snapshot? && f in item.row.tokens
  {
    if session !in s.counters && StartsAtZero(item) then 0 else item.row.tokens[f]
  }

  /** How far the record moves the counter of a field, measured from its start if new. */
  function Movement(s: Store, item: Item, session: SessionId, f: Field): int {
    if Saves(s, item, session) && f in item.row.tokens then
      item.row.tokens[f]
      - if Known(s, session, f) then s.counters[session].tokens[f] else Start(s, item, session, f)
    else 0
  }

  /** The verdict on a snapshot, in terms of the record and the saved counter. */
  lemma Verdicts(s: Store, item: Item, session: SessionId)
    requires Counted(s, item, session)
    ensures
      var v := Judge(item.row, Saved(s, session), item.env);
      && (v.save <==> Saves(s, item, session))
      && (v.save && session in s.counters ==> (v.reset <==> Falls(s, item, session)))
      && (session !in s.counters ==> !v.reset && (v.baselineOnly <==> !StartsAtZero(item)))
      && (session in s.counters ==> !v.baselineOnly)
      && (v.save && !v.reset ==> forall f ::
            (if f in v.deltas then v.deltas[f] else 0) == Movement(s, item, session, f))
      && (v.reset ==> v.deltas == map[])
  {}

  /** What the record adds to the session's stored total. */
  function Adds(s: Store, item: Item, session: SessionId, f: Field): int {
    if Disturbs(s, item, session) then 0 else Movement(s, item, session, f)
  }

  lemma CountedImport(s: Store, item: Item)
    requires Counted(s, item, item.row.session)
    ensures
      var session, row := item.row.session, item.row;
      var v := Judge(row, Saved(s, session), item.env);
      && row.Id() !in s.events
      && Import(s, item).events
         == if LeavesEvent(v, row, item.env) then s.events[row.Id() := Event(session, row.At(), row.model, v.deltas)]
            else s.events
  {
    hide Judge, Touch, Mark, MarkIf, Force;
  }

  lemma OwnSnapshotAdds(s: Store, item: Item, f: Field)
    requires item.row.Snapshot?
    ensures Stored(Import(s, item).events, item.row.session, f)
            == Stored(s.events, item.row.session, f) + Adds(s, item, item.row.session, f)
  {
    var row, session := item.row, item.row.session;
    if Counted(s, item, session) {
      Verdicts(s, item, session);
      CountedImport(s, item);
      var v := Judge(row, Saved(s, session), item.env);
      hide Stored, Import, Judge, Movement, Saves, Falls;
      if LeavesEvent(v, row, item.env) {
        StoredInsert(s.events, row.Id(), Event(session, row.At(), row.model, v.deltas), session, f);
      }
    } else {
      assert Import(s, item).events == s.events;
      hide Import;
    }
  }

  lemma OtherSnapshotAdds(s: Store, item: Item, session: SessionId, f: Field)
    requires item.row.Snapshot? && item.row.session != session
    ensures Stored(Import(s, item).events, session, f) == Stored(s.events, session, f)
  {
    var row := item.row;
    hide Stored, Touch, Mark, MarkIf, Force, Judge;
    var v := Judge(row, Saved(s, row.session), item.env);
    if row.Id() !in s.events {
      StoredInsert(s.events, row.Id(), Event(row.session, row.At(), row.model, v.deltas), session, f);
    }
  }

  lemma SnapshotAdds(s: Store, item: Item, session: SessionId, f: Field)
    requires item.row.Snapshot?
    ensures Stored(Import(s, item).events, session, f) == Stored(s.events, session, f) + Adds(s, item, session, f)
  {
    if item.row.session == session {
      OwnSnapshotAdds(s, item, f);
    } else {
      OtherSnapshotAdds(s, item, session, f);
    }
  }

  lemma MessageAdds(s: Store, item: Item, session: SessionId, f: Field)
    requires item.row.Message?
    ensures Stored(Import(s, item).events, session, f) == Stored(s.events, session, f)
    ensures Import(s, item).counters == s.counters
  {
    var row := item.row;
    if row.message.Some? {
      StoredIgnoresMessages(s.events, row.Id(), Merged(s, row), session, f);
    }
  }

  /** Undisturbed movement is stored in full; disturbed movement is not stored at all. */
  lemma AddsIsMovement(s: Store, item: Item, session: SessionId, f: Field)
    ensures Stored(Import(s, item).events, session, f)
            == Stored(s.events, session, f) + if Disturbs(s, item, session) then 0 else Movement(s, item, session, f)
  {
    if item.row.Snapshot? {
      SnapshotAdds(s, item, session, f);
    } else {
      MessageAdds(s, item, session, f);
    }
  }

  /** The saved counter takes over every field of the record and keeps the others. */
  lemma ImportSaves(s: Store, item: Item, session: SessionId)
    ensures
      var later := Import(s, item).counters;
      if Saves(s, item, session) then
        && session in later
        && later[session].at == item.row.stamp.at
        && later[session].tokens
           == (if session in s.counters then s.counters[session].tokens else map[]) + item.row.tokens
      else
        (session in later <==> session in s.counters) && (session in later ==> later[session] == s.counters[session])
  {
    if Counted(s, item, session) {
      Verdicts(s, item, session);
      hide Judge, Saves, Falls, Movement, Touch, Mark, MarkIf, Force;
    }
  }

  // ---------- The event and the session of one snapshot ----------

  /** The fields that the record moves or that start with it at zero. */
  predicate HasMovement(s: Store, item: Item, session: SessionId, f: Field) {
    && f in item.row.tokens && !Falls(s, item, session)
    && (Known(s, session, f) || (session !in s.counters && item.row.Snapshot? && StartsAtZero(item)))
  }

  /** A counted snapshot leaves an event with the movement of each field, unless it is too old,
      changes nothing, or has no movement after a clear. */
  lemma EventOfSnapshot(s: Store, item: Item)
    requires Counted(s, item, item.row.session)
    ensures
      var session, later := item.row.session, Import(s, item).events;
      var id := SnapshotId(session, item.row.stamp, item.row.tokens);
      && later - {id} == s.events
      && (id in later <==>
            && Saves(s, item, session) && item.row.stamp.at >= item.env.boundary
            && (item.env.cutoff.Some? || item.env.flagged ==> exists f :: HasMovement(s, item, session, f)))
      && (id in later ==>
            && later[id].session == session && later[id].at == item.row.stamp.at && later[id].model == item.row.model
            && (forall f :: f in later[id].tokens <==> HasMovement(s, item, session, f))
            && (forall f :: f in later[id].tokens ==> later[id].tokens[f] == Movement(s, item, session, f)))
  {
    var session := item.row.session;
    Verdicts(s, item, session);
    CountedImport(s, item);
    if Saves(s, item, session) {
      DeltaFields(s, item, session);
    }
    var v := Judge(item.row, Saved(s, session), item.env);
    hide Import, Judge, Saves, Falls, HasMovement, Movement, Counted;
    assert v.deltas == map[] <==> forall f :: f !in v.deltas;
  }

  lemma DeltaFields(s: Store, item: Item, session: SessionId)
    requires Counted(s, item, session) && Saves(s, item, session)
    ensures forall f :: f in Judge(item.row, Saved(s, session), item.env).deltas <==> HasMovement(s, item, session, f)
  {}

  // ---------- Whole runs ----------

  /** The start of a field's count over a run. */
  function Baseline(s: Store, items: seq<Item>, session: SessionId, f: Field): Option<int> {
    if items == [] then None
    else
      var before, last := ImportAll(s, items[..|items| - 1]), items[|items| - 1];
      if Known(before, session, f) then Baseline(s, items[..|items| - 1], session, f)
      else if Saves(before, last, session) && f in last.row.tokens then Some(Start(before, last, session, f))
      else None
  }

  /** The counter's movement over disturbing records, which is dropped. */
  function Dropped(s: Store, items: seq<Item>, session: SessionId, f: Field): int {
    if items == [] then 0
    else
      var before, last := ImportAll(s, items[..|items| - 1]), items[|items| - 1];
      Dropped(s, items[..|items| - 1], session, f)
      + if Disturbs(before, last, session) then Movement(before, last, session, f) else 0
  }

  lemma StoredGrows(s: Store, item: Item, session: SessionId, f: Field)
    ensures Stored(Import(s, item).events, session, f)
            == Stored(s.events, session, f)
               + if Disturbs(s, item, session) then 0 else Movement(s, item, session, f)
    ensures Known(Import(s, item), session, f)
            <==> Known(s, session, f) || (Saves(s, item, session) && f in item.row.tokens)
    ensures Known(Import(s, item), session, f) ==>
              Import(s, item).counters[session].tokens[f]
              == Movement(s, item, session, f)
                 + if Known(s, session, f) then s.counters[session].tokens[f] else Start(s, item, session, f)
  {
    AddsIsMovement(s, item, session, f);
    ImportSaves(s, item, session);
    hide Import, Stored;
  }

  lemma {:induction false} StoredTelescopes(s: Store, items: seq<Item>, session: SessionId, f: Field)
    requires session !in s.counters && Stored(s.events, session, f) == 0
    ensures
      var later := ImportAll(s, items);
      && (Known(later, session, f) <==> Baseline(s, items, session, f).Some?)
      && Stored(later.events, session, f) + Dropped(s, items, session, f)
         == if Known(later, session, f)
            then later.counters[session].tokens[f] - Baseline(s, items, session, f).value else 0
  {
    if items != [] {
      StoredTelescopes(s, items[..|items| - 1], session, f);
      StoredGrows(ImportAll(s, items[..|items| - 1]), items[|items| - 1], session, f);
    }
  }

  ghost predicate Undisturbed(s: Store, items: seq<Item>, session: SessionId) {
    items != [] ==>
      && Undisturbed(s, items[..|items| - 1], session)
      && !Disturbs(ImportAll(s, items[..|items| - 1]), items[|items| - 1], session)
  }

  lemma {:induction false} UndisturbedDropsNothing(s: Store, items: seq<Item>, session: SessionId, f: Field)
    requires Undisturbed(s, items, session)
    ensures Dropped(s, items, session, f) == 0
  {
    if items != [] {
      UndisturbedDropsNothing(s, items[..|items| - 1], session, f);
    }
  }

  /** With no decrease and nothing outside retention, the stored deltas of a field add up
      to its saved counter minus its baseline. */
  lemma StoredIsCounterMinusBaseline(s: Store, items: seq<Item>, session: SessionId, f: Field)
    requires session !in s.counters && Stored(s.events, session, f) == 0
    requires Undisturbed(s, items, session) && Known(ImportAll(s, items), session, f)
    ensures Baseline(s, items, session, f).Some?
    ensures Stored(ImportAll(s, items).events, session, f)
            == ImportAll(s, items).counters[session].tokens[f] - Baseline(s, items, session, f).value
  {
    StoredTelescopes(s, items, session, f);
    UndisturbedDropsNothing(s, items, session, f);
  }

  // ---------- The first counted snapshot ----------

  ghost predicate FirstCounted(s: Store, items: seq<Item>, session: SessionId, k: nat) {
    && k < |items| && Counted(ImportAll(s, items[..k]), items[k], session)
    && forall i :: 0 <= i < k ==> !Counted(ImportAll(s, items[..i]), items[i], session)
  }

  lemma {:induction false} NothingCounted(s: Store, items: seq<Item>, session: SessionId)
    requires session !in s.counters
    requires forall i :: 0 <= i < |items| ==> !Counted(ImportAll(s, items[..i]), items[i], session)
    ensures session !in ImportAll(s, items).counters
  {
    if items != [] {
      var init := items[..|items| - 1];
      assert forall i :: 0 <= i < |init| ==> init[i] == items[i] && init[..i] == items[..i];
      NothingCounted(s, init, session);
      ImportSaves(ImportAll(s, init), items[|items| - 1], session);
    }
  }

  /** Each field of a session's first counted snapshot counts from zero or from its first value,
      as that one record and what its import knew of a clear say. */
  lemma {:induction false} FirstSnapshotDecides(s: Store, items: seq<Item>, session: SessionId, k: nat, f: Field)
    requires session !in s.counters && FirstCounted(s, items, session, k) && f in items[k].row.tokens
    ensures Baseline(s, items, session, f) == Some(if StartsAtZero(items[k]) then 0 else items[k].row.tokens[f])
    ensures Known(ImportAll(s, items), session, f)
  {
    hide Import, Saves, StartsAtZero, Disturbs, Movement;
    var init := items[..|items| - 1];
    assert forall i :: 0 <= i < |init| ==> init[i] == items[i] && init[..i] == items[..i];
    StoredGrows(ImportAll(s, init), items[|items| - 1], session, f);
    if k == |items| - 1 {
      NothingCounted(s, init, session);
      FirstSaves(ImportAll(s, init), items[k], session);
    } else {
      assert init[..k] == items[..k];
      FirstSnapshotDecides(s, init, session, k, f);
    }
  }

  lemma FirstSaves(s: Store, item: Item, session: SessionId)
    requires session !in s.counters && Counted(s, item, session)
    ensures Saves(s, item, session)
  {}

  /** A counter that is measured from zero is stored in full: over every undisturbed run the
      stored deltas of each field of such a first snapshot are exactly its saved counter. */
  lemma FullCounterIsStored(s: Store, items: seq<Item>, session: SessionId, k: nat, f: Field)
    requires session !in s.counters && Stored(s.events, session, f) == 0 && Undisturbed(s, items, session)
    requires FirstCounted(s, items, session, k) && StartsAtZero(items[k]) && f in items[k].row.tokens
    ensures Known(ImportAll(s, items), session, f)
    ensures Stored(ImportAll(s, items).events, session, f) == ImportAll(s, items).counters[session].tokens[f]
  {
    FirstSnapshotDecides(s, items, session, k, f);
    StoredIsCounterMinusBaseline(s, items, session, f);
  }

  /** Nothing was cleared before these records were imported. */
  ghost predicate Uncleared(items: seq<Item>) {
    forall item :: item in items ==> item.env.cutoff.None? && !item.env.flagged
  }

  predicate IsSnapshotOf(row: Row, session: SessionId) {
    row.Snapshot? && row.session == session && !row.lineageUnverified
  }

  ghost predicate NoEventsOf(s: Store, session: SessionId) {
    forall id :: id in s.events && id.SnapshotId? ==> id.session != session
  }

  lemma {:induction false} NoEventsBefore(s: Store, items: seq<Item>, session: SessionId)
    requires NoEventsOf(s, session) && forall item :: item in items ==> !IsSnapshotOf(item.row, session)
    ensures NoEventsOf(ImportAll(s, items), session)
  {
    if items != [] {
      var init, last := items[..|items| - 1], items[|items| - 1];
      assert last in items;
      NoEventsBefore(s, init, session);
      NoEventsStay(ImportAll(s, init), last, session);
    }
  }

  lemma NoEventsStay(s: Store, item: Item, session: SessionId)
    requires NoEventsOf(s, session) && !IsSnapshotOf(item.row, session)
    ensures NoEventsOf(Import(s, item), session)
  {
    hide Judge, Touch, Mark, MarkIf, Force, Disagree;
  }

  /** With nothing cleared, every undisturbed run stores of a new session exactly its saved
      counter, for each field of its first snapshot. */
  lemma UnclearedStoresCounter(s: Store, items: seq<Item>, session: SessionId, k: nat, f: Field)
    requires session !in s.counters && NoEventsOf(s, session) && Stored(s.events, session, f) == 0
    requires Uncleared(items) && Undisturbed(s, items, session)
    requires k < |items| && IsSnapshotOf(items[k].row, session) && f in items[k].row.tokens
    requires forall i :: 0 <= i < k ==> !IsSnapshotOf(items[i].row, session)
    ensures session in ImportAll(s, items).counters && f in ImportAll(s, items).counters[session].tokens
    ensures Stored(ImportAll(s, items).events, session, f) == ImportAll(s, items).counters[session].tokens[f]
  {
    NoEventsBefore(s, items[..k], session);
    assert items[k] in items;
    FullCounterIsStored(s, items, session, k, f);
  }

  // ---------- Signs ----------

  predicate NonNegative(tokens: Tokens) {
    forall f :: f in tokens ==> tokens[f] >= 0
  }

  ghost predicate EventsNonNegative(s: Store) {
    forall id :: id in s.events ==> NonNegative(s.events[id].tokens)
  }

  /** The parser only yields non-negative counts; no stored count is ever negative. */
  lemma {:induction false} StoredCountsNonNegative(s: Store, items: seq<Item>)
    requires EventsNonNegative(s)
    requires forall item :: item in items ==> NonNegative(item.row.tokens)
    ensures EventsNonNegative(ImportAll(s, items))
  {
    if items != [] {
      var init, last := items[..|items| - 1], items[|items| - 1];
      StoredCountsNonNegative(s, init);
      assert last in items;
      ImportKeepsSign(ImportAll(s, init), last);
    }
  }

  lemma ImportKeepsSign(s: Store, item: Item)
    requires EventsNonNegative(s) && NonNegative(item.row.tokens)
    ensures EventsNonNegative(Import(s, item))
  {
    if item.row.Snapshot? {
      assert NonNegative(Judge(item.row, Saved(s, item.row.session), item.env).deltas);
      hide Judge, Touch, Mark, MarkIf, Force, NonNegative;
    } else if item.row.message.Some? {
      assert NonNegative(Merged(s, item.row).tokens);
      hide Touch, Mark, MarkIf, Contradicts, Merged, NonNegative;
    }
  }
}
