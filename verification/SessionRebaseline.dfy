/** The stored usage of a session through clears, retention trims and imports: what is stored,
    and what was lost on the way, add up to the counter's movement since its baseline; after
    a clear the baseline of a session is a value read from a file. */
module SessionRebaseline {
  import opened Options
  import opened SessionStore
  import opened SessionLedger
  import opened SessionClear

  // ---------- Sums over parts of the event table ----------

  function Part(events: map<EventId, Event>, ids: set<EventId>): map<EventId, Event> {
    map id | id in events && id in ids :: events[id]
  }

  function Others(events: map<EventId, Event>, ids: set<EventId>): map<EventId, Event> {
    map id | id in events && id !in ids :: events[id]
  }

  /** A table's total is that of any part and of what the part leaves. */
  lemma {:induction false} StoredSplits(events: map<EventId, Event>, ids: set<EventId>, session: SessionId, f: Field)
    ensures Stored(events, session, f) == Stored(Part(events, ids), session, f) + Stored(Others(events, ids), session, f)
    decreases events.Keys
  {
    if events == map[] {
      assert Part(events, ids) == map[] && Others(events, ids) == map[];
    } else {
      var id :| id in events;
      StoredWithout(events, id, session, f);
      StoredSplits(events - {id}, ids, session, f);
      if id in ids {
        assert Part(events, ids) - {id} == Part(events - {id}, ids) && Others(events, ids) == Others(events - {id}, ids);
        StoredWithout(Part(events, ids), id, session, f);
      } else {
        assert Part(events, ids) == Part(events - {id}, ids) && Others(events, ids) - {id} == Others(events - {id}, ids);
        StoredWithout(Others(events, ids), id, session, f);
      }
    }
  }

  /** No snapshot event of the session carries the field. */
  ghost predicate Silent(events: map<EventId, Event>, session: SessionId, f: Field) {
    forall id :: id in events && id.SnapshotId? && events[id].session == session ==> f !in events[id].tokens
  }

  lemma {:induction false} SilentStoresNothing(events: map<EventId, Event>, session: SessionId, f: Field)
    requires Silent(events, session, f)
    ensures Stored(events, session, f) == 0
    decreases events.Keys
  {
    if events != map[] {
      var id :| id in events;
      StoredWithout(events, id, session, f);
      SilentStoresNothing(events - {id}, session, f);
    }
  }

  // ---------- Accounts ----------

  /** What is known of a session's field besides the tables: where its counter started, and
      how much of its movement is not stored any more or never was. */
  datatype Account = Account(base: Option<int>, lost: int)

  const UNKNOWN := Account(None, 0)

  /** A record gives a new counter its start; movement that is not stored is lost. */
  function AfterItem(s: Store, item: Item, account: Account, session: SessionId, f: Field): Account {
    var lost := if Disturbs(s, item, session) then Movement(s, item, session, f) else 0;
    if Known(s, session, f) || !Saves(s, item, session) || f !in item.row.tokens then account.(lost := account.lost + lost)
    else Account(Some(Start(s, item, session, f)), account.lost + lost)
  }

  function AfterItems(s: Store, items: seq<Item>, account: Account, session: SessionId, f: Field): Account {
    if items == [] then account
    else
      var init := items[..|items| - 1];
      AfterItem(ImportAll(s, init), items[|items| - 1], AfterItems(s, init, account, session, f), session, f)
  }

  /** The events that retention removes. */
  function Trimmed(s: Store, before: Time): map<EventId, Event> {
    Others(s.events, Trim(s, before).events.Keys)
  }

  function EnvOf(w: World, step: Step): Env
    requires Enabled(w, step) && step.File?
  {
    Env(w.running.value.cutoff, w.running.value.flagged, step.boundary)
  }

  /** Retention loses what it removes; a deleted session, like a cleared one, starts anew. */
  ghost function AfterStep(w: World, step: Step, account: Account, session: SessionId, f: Field): Account
    requires Enabled(w, step)
  {
    match step
    case File(rows, _) => AfterItems(w.store, Items(rows, EnvOf(w, step)), account, session, f)
    case ClearAll(_) => UNKNOWN
    case TrimOld(before) =>
      if session !in Trim(w.store, before).sessions then UNKNOWN
      else account.(lost := account.lost + Stored(Trimmed(w.store, before), session, f))
    case _ => account
  }

  ghost function AccountAfter(w: World, steps: seq<Step>, session: SessionId, f: Field): Account {
    if steps == [] then UNKNOWN
    else
      var init, last := steps[..|steps| - 1], steps[|steps| - 1];
      var account := AccountAfter(w, init, session, f);
      if Enabled(TakeAll(w, init), last) then AfterStep(TakeAll(w, init), last, account, session, f) else account
  }

  /** What is stored and what was lost is the counter's movement since its start. */
  ghost predicate Balances(s: Store, account: Account, session: SessionId, f: Field) {
    if Known(s, session, f)
    then account.base.Some? && Stored(s.events, session, f) + account.lost == s.counters[session].tokens[f] - account.base.value
    else account == UNKNOWN && Silent(s.events, session, f)
  }

  lemma SnapshotKeepsSilent(s: Store, item: Item, session: SessionId, f: Field)
    requires item.row.Snapshot? && Silent(s.events, session, f) && !Known(Import(s, item), session, f)
    ensures Silent(Import(s, item).events, session, f)
  {
    hide Import, Saves, Counted, HasMovement, Movement;
    ImportSaves(s, item, session);
    if Counted(s, item, item.row.session) {
      EventOfSnapshot(s, item);
      MovementHasField(s, item, f);
    } else {
      UncountedKeepsEvents(s, item);
    }
  }

  lemma MovementHasField(s: Store, item: Item, f: Field)
    ensures HasMovement(s, item, item.row.session, f) ==> f in item.row.tokens
  {}

  lemma UncountedKeepsEvents(s: Store, item: Item)
    requires item.row.Snapshot? && !Counted(s, item, item.row.session)
    ensures Import(s, item).events == s.events
  {
    hide Judge, Touch, Mark, MarkIf;
  }

  lemma MessageKeepsSilent(s: Store, item: Item, session: SessionId, f: Field)
    requires item.row.Message? && Silent(s.events, session, f)
    ensures Silent(Import(s, item).events, session, f)
  {}

  lemma ItemBalances(s: Store, item: Item, account: Account, session: SessionId, f: Field)
    requires Balances(s, account, session, f)
    ensures Balances(Import(s, item), AfterItem(s, item, account, session, f), session, f)
  {
    StoredGrows(s, item, session, f);
    if !Known(s, session, f) {
      SilentStoresNothing(s.events, session, f);
    }
    if !Known(Import(s, item), session, f) {
      if item.row.Snapshot? {
        SnapshotKeepsSilent(s, item, session, f);
      } else {
        MessageKeepsSilent(s, item, session, f);
      }
    }
  }

  lemma {:induction false} ItemsBalance(s: Store, items: seq<Item>, account: Account, session: SessionId, f: Field)
    requires Balances(s, account, session, f)
    ensures Balances(ImportAll(s, items), AfterItems(s, items, account, session, f), session, f)
  {
    if items != [] {
      var init := items[..|items| - 1];
      ItemsBalance(s, init, account, session, f);
      ItemBalances(ImportAll(s, init), items[|items| - 1], AfterItems(s, init, account, session, f), session, f);
    }
  }

  lemma TrimSplits(s: Store, before: Time, session: SessionId, f: Field)
    ensures Stored(s.events, session, f)
            == Stored(Trim(s, before).events, session, f) + Stored(Trimmed(s, before), session, f)
  {
    var later := Trim(s, before).events;
    StoredSplits(s.events, later.Keys, session, f);
    assert Part(s.events, later.Keys) == later;
  }

  lemma TrimBalances(s: Store, before: Time, account: Account, session: SessionId, f: Field)
    requires Referenced(s) && Balances(s, account, session, f)
    ensures
      var later := Trim(s, before);
      Balances(later, if session !in later.sessions then UNKNOWN
                      else account.(lost := account.lost + Stored(Trimmed(s, before), session, f)), session, f)
  {
    if Known(s, session, f) && session in Trim(s, before).sessions {
      TrimSplits(s, before, session, f);
    } else {
      assert !Known(Trim(s, before), session, f);
      TrimIsSilent(s, before, session, f);
      if session in Trim(s, before).sessions {
        SilentStoresNothing(Trimmed(s, before), session, f);
      }
    }
  }

  lemma TrimIsSilent(s: Store, before: Time, session: SessionId, f: Field)
    requires session !in Trim(s, before).sessions || Silent(s.events, session, f)
    ensures Silent(Trim(s, before).events, session, f)
  {}

  lemma StepBalances(w: World, step: Step, account: Account, session: SessionId, f: Field)
    requires Clean(w) && Enabled(w, step) && Balances(w.store, account, session, f)
    ensures Balances(Take(w, step).store, AfterStep(w, step, account, session, f), session, f)
  {
    match step
    case File(rows, _) => ItemsBalance(w.store, Items(rows, EnvOf(w, step)), account, session, f);
    case TrimOld(before) => TrimBalances(w.store, before, account, session, f);
    case _ =>
  }

  /** Over every run of imports, clears and trims a session's stored counts of a field, and
      the movement lost to resets, to records outside retention and to trims, add up to its
      counter minus the value the counter started from. */
  lemma {:induction false} AccountsBalance(w: World, steps: seq<Step>, session: SessionId, f: Field)
    requires Clean(w) && Balances(w.store, UNKNOWN, session, f)
    ensures Balances(TakeAll(w, steps).store, AccountAfter(w, steps, session, f), session, f)
  {
    if steps != [] {
      var init, last := steps[..|steps| - 1], steps[|steps| - 1];
      var before := TakeAll(w, init);
      AccountsBalance(w, init, session, f);
      ClearedNeverReturns(w, init);
      if Enabled(before, last) {
        StepBalances(before, last, AccountAfter(w, init, session, f), session, f);
      }
    }
  }

  // ---------- After a clear ----------

  /** Both tools have a cutoff, and a running import works with one. */
  ghost predicate HasCutoffs(w: World) {
    && Codex in w.store.cutoffs && ClaudeCode in w.store.cutoffs
    && (w.running.Some? ==> w.running.value.cutoff.Some?)
  }

  lemma {:induction false} ImportsKeepCutoffs(s: Store, items: seq<Item>)
    ensures ImportAll(s, items).cutoffs == s.cutoffs
  {
    if items != [] {
      ImportsKeepCutoffs(s, items[..|items| - 1]);
    }
  }

  /** After a clear, every import, now and after whatever follows, carries a cutoff and so
      treats first snapshots as baselines. */
  lemma {:induction false} CutoffsStay(w: World, steps: seq<Step>)
    requires HasCutoffs(w)
    ensures HasCutoffs(TakeAll(w, steps))
  {
    if steps != [] {
      var init, last := steps[..|steps| - 1], steps[|steps| - 1];
      var before := TakeAll(w, init);
      CutoffsStay(w, init);
      if last.Begin? {
        assert last.tool == Codex || last.tool == ClaudeCode;
      }
      if Enabled(before, last) && last.File? {
        ImportsKeepCutoffs(before.store, Items(last.rows, EnvOf(before, last)));
      }
    }
  }

  lemma {:induction false} CutoffsOnlyClear(w: World, steps: seq<Step>)
    requires ClearsNothing(w, steps)
    ensures TakeAll(w, steps).store.cutoffs == w.store.cutoffs
  {
    if steps != [] {
      var init, last := steps[..|steps| - 1], steps[|steps| - 1];
      var before := TakeAll(w, init);
      assert forall i :: 0 <= i < |init| ==> init[i] == steps[i] && init[..i] == steps[..i];
      CutoffsOnlyClear(w, init);
      if Enabled(before, last) && last.File? {
        ImportsKeepCutoffs(before.store, Items(last.rows, EnvOf(before, last)));
      }
    }
  }

  /** Until something is cleared again, everything stored is later than the clear. */
  lemma NothingFromBeforeTheClear(w: World, now: Time, steps: seq<Step>, id: EventId)
    requires Enabled(w, ClearAll(now)) && ClearsNothing(Take(w, ClearAll(now)), steps)
    requires id in TakeAll(Take(w, ClearAll(now)), steps).store.events
    ensures TakeAll(Take(w, ClearAll(now)), steps).store.events[id].at > now
  {
    var cleared := Take(w, ClearAll(now));
    ClearedNeverReturns(cleared, steps);
    CutoffsOnlyClear(cleared, steps);
    assert OwnerOf(id) == Codex || OwnerOf(id) == ClaudeCode;
  }

  /** None of the rows proves that the session was created after the cutoff of its import. */
  ghost predicate Unproven(rows: seq<Row>, env: Env, session: SessionId) {
    forall row :: row in rows && row.Snapshot? && row.session == session ==> !StartsAtZero(Item(row, env))
  }

  ghost predicate NeverProven(w: World, steps: seq<Step>, session: SessionId) {
    forall i :: 0 <= i < |steps| && steps[i].File? && Enabled(TakeAll(w, steps[..i]), steps[i])
      ==> Unproven(steps[i].rows, EnvOf(TakeAll(w, steps[..i]), steps[i]), session)
  }

  /** Some imported file gave the session's field this value. */
  ghost predicate WasRead(steps: seq<Step>, session: SessionId, f: Field, value: int) {
    exists i, row :: 0 <= i < |steps| && steps[i].File? && IsReading(steps[i].rows, row, session, f, value)
  }

  predicate IsReading(rows: seq<Row>, row: Row, session: SessionId, f: Field, value: int) {
    row in rows && row.session == session && f in row.tokens && row.tokens[f] == value
  }

  lemma {:induction false} StartIsReading(s: Store, rows: seq<Row>, env: Env, account: Account, session: SessionId, f: Field)
    requires env.cutoff.Some? && Unproven(rows, env, session)
    ensures
      var later := AfterItems(s, Items(rows, env), account, session, f);
      later.base == account.base
      || (later.base.Some? && exists row :: IsReading(rows, row, session, f, later.base.value))
  {
    if rows != [] {
      var init, last := rows[..|rows| - 1], rows[|rows| - 1];
      assert Items(rows, env)[..|rows| - 1] == Items(init, env);
      assert forall row :: row in init ==> row in rows;
      StartIsReading(s, init, env, account, session, f);
      var before := AfterItems(s, Items(init, env), account, session, f);
      var later := AfterItems(s, Items(rows, env), account, session, f);
      if later.base != before.base {
        assert IsReading(rows, last, session, f, later.base.value);
      } else if before.base != account.base {
        var row :| IsReading(init, row, session, f, before.base.value);
        assert IsReading(rows, row, session, f, later.base.value);
      }
    }
  }

  lemma NeverProvenBefore(w: World, steps: seq<Step>, session: SessionId)
    requires steps != [] && NeverProven(w, steps, session)
    ensures NeverProven(w, steps[..|steps| - 1], session)
  {
    var init := steps[..|steps| - 1];
    assert forall i :: 0 <= i < |init| ==> init[i] == steps[i] && init[..i] == steps[..i];
  }

  lemma {:induction false} BaseWasRead(w: World, steps: seq<Step>, session: SessionId, f: Field)
    requires HasCutoffs(w) && NeverProven(w, steps, session)
    ensures
      var base := AccountAfter(w, steps, session, f).base;
      base.Some? ==> WasRead(steps, session, f, base.value)
  {
    if steps != [] {
      var init, last := steps[..|steps| - 1], steps[|steps| - 1];
      var before := TakeAll(w, init);
      NeverProvenBefore(w, steps, session);
      BaseWasRead(w, init, session, f);
      CutoffsStay(w, init);
      var account := AccountAfter(w, init, session, f);
      if Enabled(before, last) && last.File? {
        StartIsReading(before.store, last.rows, EnvOf(before, last), account, session, f);
      }
      ReadStill(init, last, session, f, account.base);
    }
  }

  lemma ReadStill(init: seq<Step>, last: Step, session: SessionId, f: Field, base: Option<int>)
    requires base.Some? ==> WasRead(init, session, f, base.value)
    ensures base.Some? ==> WasRead(init + [last], session, f, base.value)
  {
    if base.Some? {
      var i, row :| 0 <= i < |init| && init[i].File? && IsReading(init[i].rows, row, session, f, base.value);
      assert (init + [last])[i] == init[i];
    }
  }

  lemma ClearedIsUnknown(w: World, now: Time, session: SessionId, f: Field)
    requires Enabled(w, ClearAll(now))
    ensures
      var cleared := Take(w, ClearAll(now));
      Clean(cleared) && HasCutoffs(cleared) && Balances(cleared.store, UNKNOWN, session, f)
  {}

  /** After a clear, whatever follows: the stored counts of a session that is never proven to
      be created after the cutoff are its counter's movement since a value read from a file
      after the clear, less what resets, retention and trims lost. Usage from before the
      clear stays out. */
  lemma ClearedStaysOut(w: World, first: seq<Step>, now: Time, later: seq<Step>, session: SessionId, f: Field)
    requires Enabled(TakeAll(w, first), ClearAll(now))
    requires NeverProven(Take(TakeAll(w, first), ClearAll(now)), later, session)
    ensures
      var cleared := Take(TakeAll(w, first), ClearAll(now));
      var s, account := TakeAll(cleared, later).store, AccountAfter(cleared, later, session, f);
      && HasCutoffs(TakeAll(cleared, later))
      && (if Known(s, session, f) then
            && account.base.Some? && WasRead(later, session, f, account.base.value)
            && Stored(s.events, session, f) + account.lost == s.counters[session].tokens[f] - account.base.value
          else Stored(s.events, session, f) == 0)
  {
    var cleared := Take(TakeAll(w, first), ClearAll(now));
    ClearedIsUnknown(TakeAll(w, first), now, session, f);
    AccountsBalance(cleared, later, session, f);
    CutoffsStay(cleared, later);
    BaseWasRead(cleared, later, session, f);
    if !Known(TakeAll(cleared, later).store, session, f) {
      SilentStoresNothing(TakeAll(cleared, later).store.events, session, f);
    }
  }

  /** The first snapshot that counts for such a session stores nothing: not right after the
      clear, and not after retention has deleted the session. */
  lemma FirstSnapshotStoresNothing(w: World, now: Time, steps: seq<Step>, rows: seq<Row>, row: Row, boundary: Time, f: Field)
    requires Enabled(w, ClearAll(now)) && row.Snapshot?
    requires
      var before := TakeAll(Take(w, ClearAll(now)), steps);
      && Enabled(before, File(rows, boundary)) && before.running.value.tool == Codex
      && row.session !in ImportAll(before.store, Items(rows, EnvOf(before, File(rows, boundary)))).counters
      && !StartsAtZero(Item(row, EnvOf(before, File(rows, boundary))))
    ensures
      var before := TakeAll(Take(w, ClearAll(now)), steps);
      Stored(Take(before, File(rows + [row], boundary)).store.events, row.session, f)
      == Stored(Take(before, File(rows, boundary)).store.events, row.session, f)
  {
    hide TakeAll, Adds, StartsAtZero;
    var before := TakeAll(Take(w, ClearAll(now)), steps);
    var env := EnvOf(before, File(rows, boundary));
    var items := Items(rows + [row], env);
    assert items[..|items| - 1] == Items(rows, env);
    NewSnapshotAddsNothing(ImportAll(before.store, Items(rows, env)), Item(row, env), f);
  }

  lemma NewSnapshotAddsNothing(s: Store, item: Item, f: Field)
    requires item.row.Snapshot? && item.row.session !in s.counters && !StartsAtZero(item)
    ensures Stored(Import(s, item).events, item.row.session, f) == Stored(s.events, item.row.session, f)
  {
    SnapshotAdds(s, item, item.row.session, f);
  }
}
