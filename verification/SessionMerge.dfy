/** Claude usage of one message id: a union of all its records, or a quarantine as soon as
    two of them disagree, whatever their order, repetition or split into scans. */
module SessionMerge {
  import opened SessionStore

  /** The record reaches the message's event: it is later than the cutoff and not too old. */
  predicate Admitted(item: Item, id: EventId) {
    && item.row.Message? && item.row.message.Some? && MessageId(item.row.session, item.row.message.value) == id
    && !(item.env.cutoff.Some? && item.row.stamp.at <= item.env.cutoff.value)
    && item.row.stamp.at >= item.env.boundary
  }

  /** The admitted records of an id among the items. */
  function Rows(items: seq<Item>, id: EventId): set<Row> {
    set item | item in items && Admitted(item, id) :: item.row
  }

  /** Two records name different models, or give different counts for one field. */
  predicate Clash(a: Row, b: Row) {
    a.model != b.model || exists f :: f in a.tokens && f in b.tokens && a.tokens[f] != b.tokens[f]
  }

  ghost predicate Contradictory(rows: set<Row>) {
    exists a, b :: a in rows && b in rows && Clash(a, b)
  }

  /** The event is the union of the records: their common model, and each field some record carries. */
  ghost predicate IsUnion(e: Event, rows: set<Row>) {
    && (forall r :: r in rows ==> r.model == e.model)
    && (forall r, f :: r in rows && f in r.tokens ==> f in e.tokens && e.tokens[f] == r.tokens[f])
    && (forall f :: f in e.tokens ==> exists r :: r in rows && f in r.tokens)
  }

  /** What the store holds about an id after its records. */
  ghost predicate Holds(s: Store, id: EventId, rows: set<Row>) {
    if rows == {} then id !in s.events && id !in s.conflicts
    else if Contradictory(rows) then id in s.conflicts && id !in s.events
    else id !in s.conflicts && id in s.events && IsUnion(s.events[id], rows)
  }

  ghost predicate SameAt(s: Store, later: Store, id: EventId) {
    && (id in later.events <==> id in s.events) && (id in s.events ==> later.events[id] == s.events[id])
    && (id in later.conflicts <==> id in s.conflicts)
  }

  lemma SnapshotLeavesMessages(s: Store, row: Row, env: Env, id: EventId)
    requires id.MessageId? && row.Snapshot?
    ensures SameAt(s, ImportSnapshot(s, row, env), id)
  {
    hide Judge, LeavesEvent, Touch, Mark, MarkIf, Force;
  }

  lemma MessageLeavesOthers(s: Store, row: Row, env: Env, id: EventId)
    requires row.Message? && !Admitted(Item(row, env), id)
    ensures SameAt(s, ImportMessage(s, row, env), id)
  {
    hide Touch, Mark, MarkIf, Contradicts, Merged;
  }

  lemma OthersLeaveIdAlone(s: Store, item: Item, id: EventId)
    requires id.MessageId? && !Admitted(item, id)
    ensures SameAt(s, Import(s, item), id)
  {
    hide ImportSnapshot, ImportMessage, Admitted, SameAt;
    if item.row.Snapshot? {
      SnapshotLeavesMessages(s, item.row, item.env, id);
    } else {
      MessageLeavesOthers(s, item.row, item.env, id);
    }
  }

  /** A record clashes with the union exactly when it clashes with one of the records. */
  lemma ClashWithUnion(e: Event, rows: set<Row>, row: Row)
    requires rows != {} && IsUnion(e, rows)
    ensures Disagree(row.model, row.tokens, e.model, e.tokens) <==> exists r :: r in rows && Clash(row, r)
  {
    var any :| any in rows;
    if row.model != e.model {
      assert Clash(row, any);
    } else if Disagree(row.model, row.tokens, e.model, e.tokens) {
      var f :| f in row.tokens && f in e.tokens && row.tokens[f] != e.tokens[f];
      var r :| r in rows && f in r.tokens;
      assert Clash(row, r);
    }
    if exists r :: r in rows && Clash(row, r) {
      var r :| r in rows && Clash(row, r);
      if row.model == r.model {
        var f :| f in row.tokens && f in r.tokens && row.tokens[f] != r.tokens[f];
        assert f in e.tokens;
      }
    }
  }

  lemma ContradictoryWith(rows: set<Row>, row: Row)
    ensures Contradictory(rows + {row}) <==> Contradictory(rows) || exists r :: r in rows && Clash(row, r)
  {
    if Contradictory(rows + {row}) {
      var a, b :| a in rows + {row} && b in rows + {row} && Clash(a, b);
      assert Clash(b, a);
      assert !Clash(row, row);
    }
    if Contradictory(rows) {
      var a, b :| a in rows && b in rows && Clash(a, b);
      assert a in rows + {row} && b in rows + {row};
    }
    if exists r :: r in rows && Clash(row, r) {
      var r :| r in rows && Clash(row, r);
      assert row in rows + {row} && r in rows + {row};
    }
  }

  lemma UnionExtends(e: Event, rows: set<Row>, row: Row)
    requires IsUnion(e, rows) && !Disagree(row.model, row.tokens, e.model, e.tokens)
    ensures IsUnion(e.(tokens := e.tokens + row.tokens), rows + {row})
  {}

  lemma AdmittedStep(s: Store, item: Item, id: EventId, rows: set<Row>)
    requires Admitted(item, id) && Holds(s, id, rows)
    ensures Holds(Import(s, item), id, rows + {item.row})
  {
    var row := item.row;
    ContradictoryWith(rows, row);
    if rows == {} {
      assert rows + {row} == {row};
    } else if !Contradictory(rows) {
      ClashWithUnion(s.events[id], rows, row);
      if !Disagree(row.model, row.tokens, s.events[id].model, s.events[id].tokens) {
        UnionExtends(s.events[id], rows, row);
      }
    }
  }

  /** After any run the store holds exactly what the id's records say. */
  lemma {:induction false} MessagesMerge(s: Store, items: seq<Item>, id: EventId)
    requires id.MessageId? && id !in s.events && id !in s.conflicts
    ensures Holds(ImportAll(s, items), id, Rows(items, id))
  {
    if items != [] {
      var init, last := items[..|items| - 1], items[|items| - 1];
      MessagesMerge(s, init, id);
      assert items == init + [last];
      if Admitted(last, id) {
        AdmittedStep(ImportAll(s, init), last, id, Rows(init, id));
        assert Rows(items, id) == Rows(init, id) + {last.row};
      } else {
        OthersLeaveIdAlone(ImportAll(s, init), last, id);
        assert Rows(items, id) == Rows(init, id);
      }
    }
  }

  /** A message's event keeps the session and the time of the first record that reached it. */
  lemma {:induction false} EventIsOfFirst(s: Store, items: seq<Item>, id: EventId, k: nat)
    requires id.MessageId? && id !in s.events && id !in s.conflicts
    requires k < |items| && Admitted(items[k], id) && forall i :: 0 <= i < k ==> !Admitted(items[i], id)
    ensures id in ImportAll(s, items).events ==>
              ImportAll(s, items).events[id].at == items[k].row.stamp.at && ImportAll(s, items).events[id].session == id.session
  {
    var init, last := items[..|items| - 1], items[|items| - 1];
    if k == |items| - 1 {
      NothingAdmitted(init, id);
      MessagesMerge(s, init, id);
    } else {
      assert forall i :: 0 <= i <= k ==> init[i] == items[i];
      EventIsOfFirst(s, init, id, k);
      MessagesMerge(s, init, id);
      assert init[k] in init && items[k].row in Rows(init, id);
    }
    EventTimeStays(ImportAll(s, init), last, id);
  }

  lemma NothingAdmitted(items: seq<Item>, id: EventId)
    requires forall i :: 0 <= i < |items| ==> !Admitted(items[i], id)
    ensures Rows(items, id) == {}
  {}

  lemma EventTimeStays(s: Store, item: Item, id: EventId)
    requires id.MessageId?
    ensures id in s.conflicts && id !in s.events ==> id !in Import(s, item).events
    ensures id in Import(s, item).events ==>
              if id in s.events
              then Import(s, item).events[id].at == s.events[id].at && Import(s, item).events[id].session == s.events[id].session
              else && Admitted(item, id) && Import(s, item).events[id].at == item.row.stamp.at
                   && Import(s, item).events[id].session == id.session
  {
    hide Judge, LeavesEvent, Touch, Mark, MarkIf, Force, Disagree;
  }

  /** Two runs with the same records for an id, in any order, repetition or grouping, end
      in the same quarantine or with the same model and tokens. */
  lemma MergeIgnoresOrder(s: Store, a: seq<Item>, b: seq<Item>, id: EventId)
    requires id.MessageId? && id !in s.events && id !in s.conflicts
    requires Rows(a, id) == Rows(b, id)
    ensures id in ImportAll(s, a).conflicts <==> id in ImportAll(s, b).conflicts
    ensures id in ImportAll(s, a).events <==> id in ImportAll(s, b).events
    ensures id in ImportAll(s, a).events ==>
              && ImportAll(s, a).events[id].model == ImportAll(s, b).events[id].model
              && ImportAll(s, a).events[id].tokens == ImportAll(s, b).events[id].tokens
  {
    MessagesMerge(s, a, id);
    MessagesMerge(s, b, id);
    var rows := Rows(a, id);
    if rows != {} && !Contradictory(rows) {
      UnionUnique(ImportAll(s, a).events[id], ImportAll(s, b).events[id], rows);
    }
  }

  lemma UnionUnique(e1: Event, e2: Event, rows: set<Row>)
    requires rows != {} && IsUnion(e1, rows) && IsUnion(e2, rows)
    ensures e1.model == e2.model && e1.tokens == e2.tokens
  {
    forall f
      ensures f in e1.tokens <==> f in e2.tokens
      ensures f in e1.tokens ==> e1.tokens[f] == e2.tokens[f]
    {
      if f in e1.tokens {
        var r :| r in rows && f in r.tokens;
      }
      if f in e2.tokens {
        var r :| r in rows && f in r.tokens;
      }
    }
  }

  /** No record brings a quarantined id's event back. */
  lemma {:induction false} QuarantineStays(s: Store, items: seq<Item>, id: EventId)
    requires id.MessageId? && id in s.conflicts && id !in s.events
    ensures id in ImportAll(s, items).conflicts && id !in ImportAll(s, items).events
  {
    if items != [] {
      QuarantineStays(s, items[..|items| - 1], id);
    }
  }

  /** A recent message after the cutoff is stored or quarantined. */
  lemma MessageIsKept(s: Store, item: Item)
    requires item.row.Message? && item.row.message.Some?
    requires item.row.stamp.at >= item.env.boundary && (item.env.cutoff.Some? ==> item.row.stamp.at > item.env.cutoff.value)
    ensures
      var id, later := MessageId(item.row.session, item.row.message.value), Import(s, item);
      id in later.events || id in later.conflicts
  {
    hide Touch, Mark, MarkIf, Disagree;
  }

  /** Messages leave snapshot events alone. */
  lemma SnapshotsStay(s: Store, item: Item)
    requires item.row.Message?
    ensures forall id :: id in s.events && id.SnapshotId? ==> id in Import(s, item).events
  {
    hide Touch, Mark, MarkIf, Disagree;
  }
}
