/** Cleared history never returns, whatever imports, clears and retention trims follow. */
module SessionClear {
  import opened Options
  import opened SessionStore
  import SessionMerge
  import SessionReplay
  import SessionSpans

  /** One import holds the import lock from reading the cutoff until it ends; clearing and
      trimming need the same lock. */
  datatype World = World(store: Store, running: Option<ToolRun>)

  datatype ToolRun = ToolRun(tool: Tool, cutoff: Option<Time>, flagged: bool)

  datatype Step =
    | Begin(tool: Tool, flagged: bool)
    | File(rows: seq<Row>, boundary: Time)
    | Finish
    | ClearAll(now: Time)
    | TrimOld(before: Time)

  function ToolOf(row: Row): Tool {
    if row.Snapshot? then Codex else ClaudeCode
  }

  function OwnerOf(id: EventId): Tool {
    if id.SnapshotId? then Codex else ClaudeCode
  }

  function Cutoff(s: Store, tool: Tool): Option<Time> {
    if tool in s.cutoffs then Some(s.cutoffs[tool]) else None
  }

  function Items(rows: seq<Row>, env: Env): seq<Item> {
    seq(|rows|, i requires 0 <= i < |rows| => Item(rows[i], env))
  }

  predicate Enabled(w: World, step: Step) {
    match step
    case Begin(_, _) => w.running.None?
    case File(rows, _) => w.running.Some? && forall r :: r in rows ==> ToolOf(r) == w.running.value.tool
    case Finish => w.running.Some?
    case ClearAll(_) => w.running.None?
    case TrimOld(_) => w.running.None?
  }

  function Take(w: World, step: Step): World
    requires Enabled(w, step)
  {
    match step
    case Begin(tool, flagged) => w.(running := Some(ToolRun(tool, Cutoff(w.store, tool), flagged)))
    case File(rows, boundary) =>
      var run := w.running.value;
      w.(store := ImportAll(w.store, Items(rows, Env(run.cutoff, run.flagged, boundary))))
    case Finish => w.(running := None)
    case ClearAll(now) => w.(store := Clear(w.store, now))
    case TrimOld(before) => w.(store := Trim(w.store, before))
  }

  /** Every stored event is later than its tool's cutoff. */
  ghost predicate AfterCutoff(s: Store) {
    forall id :: id in s.events && OwnerOf(id) in s.cutoffs ==> s.events[id].at > s.cutoffs[OwnerOf(id)]
  }

  /** Events and counters belong to sessions that exist. */
  ghost predicate Referenced(s: Store) {
    && (forall id :: id in s.events ==> s.events[id].session in s.sessions)
    && (forall k :: k in s.counters ==> k in s.sessions)
  }

  /** A running import works with the cutoff that is stored. */
  ghost predicate Current(w: World) {
    w.running.Some? ==> w.running.value.cutoff == Cutoff(w.store, w.running.value.tool)
  }

  ghost predicate Clean(w: World) {
    AfterCutoff(w.store) && Referenced(w.store) && Current(w)
  }

  lemma ImportKeepsClean(s: Store, item: Item)
    requires AfterCutoff(s) && Referenced(s)
    requires item.env.cutoff == Cutoff(s, ToolOf(item.row))
    ensures AfterCutoff(Import(s, item)) && Referenced(Import(s, item))
    ensures Import(s, item).cutoffs == s.cutoffs
  {
    if item.row.Snapshot? {
      SnapshotKeepsClean(s, item.row, item.env);
    } else {
      MessageKeepsClean(s, item.row, item.env);
    }
  }

  lemma SnapshotShape(s: Store, row: Row, env: Env)
    requires row.Snapshot? && !env.Cleared(row.At())
    ensures
      var later := ImportSnapshot(s, row, env);
      && s.sessions.Keys <= later.sessions.Keys
      && (later == s || row.session in later.sessions)
      && later.counters.Keys <= s.counters.Keys + {row.session}
      && (forall id :: id in later.events ==>
            || (id in s.events && later.events[id] == s.events[id])
            || (id == row.Id() && later.events[id].session == row.session && later.events[id].at == row.At()))
  {
    hide Judge, LeavesEvent;
  }

  lemma SnapshotKeepsClean(s: Store, row: Row, env: Env)
    requires AfterCutoff(s) && Referenced(s) && row.Snapshot? && env.cutoff == Cutoff(s, Codex)
    ensures AfterCutoff(ImportSnapshot(s, row, env)) && Referenced(ImportSnapshot(s, row, env))
  {
    var later := ImportSnapshot(s, row, env);
    if !env.Cleared(row.At()) && later != s {
      SnapshotShape(s, row, env);
      assert later.cutoffs == s.cutoffs;
    }
  }

  lemma MessageKeepsClean(s: Store, row: Row, env: Env)
    requires AfterCutoff(s) && Referenced(s) && row.Message? && env.cutoff == Cutoff(s, ClaudeCode)
    ensures AfterCutoff(ImportMessage(s, row, env)) && Referenced(ImportMessage(s, row, env))
  {
    if !env.Cleared(row.At()) {
      MessageShape(s, row, env);
    }
  }

  lemma MessageShape(s: Store, row: Row, env: Env)
    requires row.Message? && !env.Cleared(row.At())
    ensures
      var later := ImportMessage(s, row, env);
      && s.sessions.Keys <= later.sessions.Keys && later.counters == s.counters && later.cutoffs == s.cutoffs
      && (forall id :: id in later.events ==>
            || (id in s.events && later.events[id].session == s.events[id].session && later.events[id].at == s.events[id].at)
            || (id == row.Id() && later.events[id].session == row.session && later.events[id].at == row.At()
                && row.session in later.sessions))
  {
    hide Disagree, Contradicts;
  }

  lemma {:induction false} FileKeepsClean(s: Store, items: seq<Item>, tool: Tool)
    requires AfterCutoff(s) && Referenced(s)
    requires forall item :: item in items ==> ToolOf(item.row) == tool && item.env.cutoff == Cutoff(s, tool)
    ensures AfterCutoff(ImportAll(s, items)) && Referenced(ImportAll(s, items))
    ensures ImportAll(s, items).cutoffs == s.cutoffs
  {
    if items != [] {
      FileKeepsClean(s, items[..|items| - 1], tool);
      assert items[|items| - 1] in items;
      ImportKeepsClean(ImportAll(s, items[..|items| - 1]), items[|items| - 1]);
    }
  }

  lemma StepKeepsClean(w: World, step: Step)
    requires Clean(w) && Enabled(w, step)
    ensures Clean(Take(w, step))
  {
    if step.File? {
      var run := w.running.value;
      FileKeepsClean(w.store, Items(step.rows, Env(run.cutoff, run.flagged, step.boundary)), run.tool);
    }
  }

  /** A step that would need a lock somebody holds does not happen. */
  function TakeAll(w: World, steps: seq<Step>): World {
    if steps == [] then w
    else
      var before, last := TakeAll(w, steps[..|steps| - 1]), steps[|steps| - 1];
      if Enabled(before, last) then Take(before, last) else before
  }

  /** Over any interleaving of clears, trims and imports, every stored event of a tool is
      later than that tool's cutoff. */
  lemma {:induction false} ClearedNeverReturns(w: World, steps: seq<Step>)
    requires Clean(w)
    ensures Clean(TakeAll(w, steps))
  {
    if steps != [] {
      var before, last := TakeAll(w, steps[..|steps| - 1]), steps[|steps| - 1];
      ClearedNeverReturns(w, steps[..|steps| - 1]);
      if Enabled(before, last) {
        StepKeepsClean(before, last);
      }
    }
  }

  // ---------- What is later than the cutoff ----------

  /** The record reached the tables: its session spans it, or its event was there before; a
      recent message with an id is stored or quarantined. */
  ghost predicate IsImported(s: Store, row: Row, boundary: Time) {
    if row.Snapshot? then SnapshotId(row.session, row.stamp, row.tokens) in s.events || SeenBy(s, row)
    else if row.message.None? then SeenBy(s, row)
    else row.stamp.at < boundary || var id := MessageId(row.session, row.message.value); id in s.events || id in s.conflicts
  }

  predicate SeenBy(s: Store, row: Row) {
    row.session in s.sessions && s.sessions[row.session].started <= row.stamp.at <= s.sessions[row.session].lastSeen
  }

  lemma ImportedWhenLater(s: Store, item: Item)
    requires item.env.cutoff.Some? ==> item.row.stamp.at > item.env.cutoff.value
    ensures IsImported(Import(s, item), item.row, item.env.boundary)
  {
    if item.row.Snapshot? {
      SessionSpans.SessionOfSnapshot(s, item);
      SessionReplay.SkippedKeepsCounters(s, item.row, item.env);
    } else {
      SessionSpans.SessionOfMessage(s, item);
      if item.row.message.Some? && item.row.stamp.at >= item.env.boundary {
        SessionMerge.MessageIsKept(s, item);
      }
    }
    hide Import;
  }

  lemma ImportedStays(s: Store, item: Item, row: Row, boundary: Time)
    requires IsImported(s, row, boundary)
    ensures IsImported(Import(s, item), row, boundary)
  {
    SessionReplay.ImportGrows(s, item);
    if item.row.Snapshot? {
      SessionReplay.SkippedKeepsCounters(s, item.row, item.env);
      SessionReplay.SnapshotKeepsMessages(s, item.row, item.env);
    } else {
      SessionReplay.MessageKeepsMessages(s, item.row, item.env);
      SessionMerge.SnapshotsStay(s, item);
    }
    hide Import;
  }

  lemma {:induction false} AllImported(s: Store, items: seq<Item>, k: nat)
    requires k < |items| && (items[k].env.cutoff.Some? ==> items[k].row.stamp.at > items[k].env.cutoff.value)
    ensures IsImported(ImportAll(s, items), items[k].row, items[k].env.boundary)
  {
    var init, last := items[..|items| - 1], items[|items| - 1];
    if k == |items| - 1 {
      ImportedWhenLater(ImportAll(s, init), last);
    } else {
      AllImported(s, init, k);
      ImportedStays(ImportAll(s, init), last, items[k].row, items[k].env.boundary);
    }
    hide Import, IsImported;
  }

  /** Whatever was cleared before, an import takes in every record that is later than the cutoff
      of its tool. */
  lemma LaterIsImported(w: World, rows: seq<Row>, boundary: Time, row: Row)
    requires Clean(w) && Enabled(w, File(rows, boundary)) && row in rows
    requires
      var tool := w.running.value.tool;
      tool in w.store.cutoffs ==> row.stamp.at > w.store.cutoffs[tool]
    ensures IsImported(Take(w, File(rows, boundary)).store, row, boundary)
  {
    var run := w.running.value;
    var items := Items(rows, Env(run.cutoff, run.flagged, boundary));
    var k :| 0 <= k < |rows| && rows[k] == row;
    AllImported(w.store, items, k);
  }

  // ---------- Retention ----------

  /** Retention keeps exactly the recent events of sessions that were seen since, and marks
      every surviving session that loses one. */
  lemma TrimKeepsRecent(s: Store, before: Time, id: EventId)
    requires Referenced(s)
    ensures id in Trim(s, before).events <==>
              id in s.events && s.events[id].at >= before && s.sessions[s.events[id].session].lastSeen >= before
    ensures id in Trim(s, before).events ==> Trim(s, before).events[id] == s.events[id]
    ensures id in s.events && s.events[id].at < before && s.events[id].session in Trim(s, before).sessions ==>
              Trim(s, before).sessions[s.events[id].session].coverage == PartialRetention
  {
    var marked := MarkTrimmed(s, before);
    if id in s.events {
      assert marked[s.events[id].session].lastSeen == s.sessions[s.events[id].session].lastSeen;
    }
  }

  /** Retention deletes exactly the sessions not seen since, with their counters, and changes
      nothing about the others but noting on those that lose events that they did. */
  lemma TrimKeepsSessions(s: Store, before: Time, session: SessionId)
    ensures session in Trim(s, before).sessions <==> session in s.sessions && s.sessions[session].lastSeen >= before
    ensures session in Trim(s, before).sessions ==>
              Trim(s, before).sessions[session] ==
                if exists id :: id in s.events && s.events[id].at < before && s.events[id].session == session
                then s.sessions[session].(coverage := PartialRetention) else s.sessions[session]
    ensures session in Trim(s, before).counters <==> session in s.counters && session in Trim(s, before).sessions
    ensures session in Trim(s, before).counters ==> Trim(s, before).counters[session] == s.counters[session]
    ensures Trim(s, before).conflicts == s.conflicts && Trim(s, before).cutoffs == s.cutoffs
  {
    var trimmed := set id | id in s.events && s.events[id].at < before :: s.events[id].session;
    assert session in trimmed <==> exists id :: id in s.events && s.events[id].at < before && s.events[id].session == session;
  }

  // ---------- Quarantine ----------

  /** No clear among the steps gets the lock it needs. */
  ghost predicate ClearsNothing(w: World, steps: seq<Step>) {
    forall i :: 0 <= i < |steps| && steps[i].ClearAll? ==> !Enabled(TakeAll(w, steps[..i]), steps[i])
  }

  ghost predicate Quarantined(s: Store, id: EventId) {
    id in s.conflicts && id !in s.events
  }

  /** Until something is cleared, a quarantined message id stays quarantined and never
      regains an event, whatever is imported and trimmed. */
  lemma {:induction false} QuarantineIsPermanent(w: World, steps: seq<Step>, id: EventId)
    requires id.MessageId? && Quarantined(w.store, id) && ClearsNothing(w, steps)
    ensures Quarantined(TakeAll(w, steps).store, id)
  {
    if steps != [] {
      var init, last := steps[..|steps| - 1], steps[|steps| - 1];
      assert ClearsNothing(w, init) by {
        assert forall i :: 0 <= i < |init| ==> init[i] == steps[i] && init[..i] == steps[..i];
      }
      QuarantineIsPermanent(w, init, id);
      var before := TakeAll(w, init);
      if Enabled(before, last) && last.File? {
        var env := Env(before.running.value.cutoff, before.running.value.flagged, last.boundary);
        SessionMerge.QuarantineStays(before.store, Items(last.rows, env), id);
      }
    }
  }
}
