/** What holds of the budget tables in every state that announcing, leasing and reporting
    can reach, and what single steps may change. */
module BudgetRuns {
  import opened Options
  import opened BudgetTables

  datatype Call =
    | Announce(forecast: Forecast, requested: Reason)
    | Lease(lease: LeaseCall)
    | Report(report: ReportCall)

  ghost function Apply(t: Tables, call: Call): Tables {
    match call
    case Announce(f, requested) => Announced(t, f, requested)
    case Lease(l) => Prepared(t, l)
    case Report(r) => Completed(t, r)
  }

  /** The clock of the delivery calls never runs backwards. */
  predicate Timely(t: Tables, call: Call) {
    match call
    case Announce(_, _) => true
    case Lease(l) => t.clock <= l.now
    case Report(r) => t.clock <= r.now
  }

  // ---------- Event invariants ----------

  ghost predicate IdsBelowNext(events: map<EventId, Event>, nextId: EventId) {
    forall id :: id in events ==> id < nextId
  }

  /** No policy, period and transition has a second row. */
  ghost predicate KeysUnique(events: map<EventId, Event>) {
    forall i, j :: i in events && j in events && HasKey(events[j], events[i].policy, events[i].start, events[i].transition)
      ==> i == j
  }

  /** Pending events of a policy belong to its stored period. */
  ghost predicate PendingInPeriod(events: map<EventId, Event>, states: map<PolicyId, PolicyState>) {
    forall id :: id in events && events[id].status.Pending? ==>
      events[id].policy in states && events[id].start == states[events[id].policy].start
  }

  ghost predicate PolicyKnown(events: map<EventId, Event>, states: map<PolicyId, PolicyState>) {
    forall id :: id in events ==> events[id].policy in states
  }

  /** At most one pending event of a policy is not a period reset. */
  ghost predicate OnePending(events: map<EventId, Event>) {
    forall i, j :: && i in events && j in events
                   && events[i].status.Pending? && events[j].status.Pending?
                   && events[i].policy == events[j].policy
                   && !events[i].transition.PeriodReset? && !events[j].transition.PeriodReset?
      ==> i == j
  }

  /** A stored risk was announced: its event row exists. */
  ghost predicate RiskRecorded(events: map<EventId, Event>, states: map<PolicyId, PolicyState>) {
    forall p :: p in states && states[p].level.Risky() ==>
      Recorded(events, p, states[p].start, Entered(states[p].level))
  }

  // Recording transitions

  /** Recording keeps every row's identity and only ever closes rows. */
  ghost predicate SameKeys(events: map<EventId, Event>, later: map<EventId, Event>) {
    forall id :: id in events ==> id in later && RowAfter(events[id], later[id])
  }

  ghost predicate RowAfter(e: Event, later: Event) {
    && HasKey(later, e.policy, e.start, e.transition)
    && (later.status.Pending? ==> e.status.Pending?)
    && (later.status.Suppressed? || later.status == e.status)
    && (!e.status.Pending? ==> later == e)
    && later.settled == e.settled
  }

  /** Rows that recording added are about the announced policy, period and transitions. */
  ghost predicate Added(events: map<EventId, Event>, later: map<EventId, Event>, f: Forecast, transitions: seq<Transition>)
    requires f.start.Some?
  {
    forall id :: id in later && id !in events ==>
      && later[id].policy == f.policy && later[id].start == f.start.value
      && later[id].transition in transitions && !later[id].settled
      && (later[id].status.Pending? || later[id].status.Suppressed?)
  }

  lemma RecordOne(table: EventTable, f: Forecast, tr: Transition, why: Reason)
    requires f.start.Some? && f.end.Some?
    requires IdsBelowNext(table.events, table.nextId) && KeysUnique(table.events)
    ensures
      var later := Record(table, f, tr, why);
      && IdsBelowNext(later.events, later.nextId) && KeysUnique(later.events)
      && SameKeys(table.events, later.events)
      && Added(table.events, later.events, f, [tr])
      && Recorded(later.events, f.policy, f.start.value, tr)
  {
    if Recorded(table.events, f.policy, f.start.value, tr) {
      RecordExisting(table, f, tr, why);
    } else {
      RecordFresh(table, f, tr, why);
    }
  }

  lemma RecordExisting(table: EventTable, f: Forecast, tr: Transition, why: Reason)
    requires f.start.Some? && f.end.Some?
    requires Recorded(table.events, f.policy, f.start.value, tr)
    ensures
      var later := Record(table, f, tr, why);
      && later.nextId == table.nextId && later.events.Keys == table.events.Keys
      && SameKeys(table.events, later.events)
      && (KeysUnique(table.events) ==> KeysUnique(later.events))
      && Recorded(later.events, f.policy, f.start.value, tr)
  {
    var id :| id in table.events && HasKey(table.events[id], f.policy, f.start.value, tr);
    assert HasKey(Record(table, f, tr, why).events[id], f.policy, f.start.value, tr);
  }

  lemma RecordFresh(table: EventTable, f: Forecast, tr: Transition, why: Reason)
    requires f.start.Some? && f.end.Some?
    requires IdsBelowNext(table.events, table.nextId) && KeysUnique(table.events)
    requires !Recorded(table.events, f.policy, f.start.value, tr)
    ensures
      var later := Record(table, f, tr, why);
      && IdsBelowNext(later.events, later.nextId) && KeysUnique(later.events)
      && SameKeys(table.events, later.events)
      && Added(table.events, later.events, f, [tr])
      && Recorded(later.events, f.policy, f.start.value, tr)
  {
    var events := table.events;
    var later := Record(table, f, tr, why);
    assert table.nextId !in events;
    assert HasKey(later.events[table.nextId], f.policy, f.start.value, tr);
    forall i | i in events
      ensures !HasKey(Fresh(f, tr, why), events[i].policy, events[i].start, events[i].transition)
    {
      assert !HasKey(events[i], f.policy, f.start.value, tr);
    }
  }

  lemma SameKeysTransitive(a: map<EventId, Event>, b: map<EventId, Event>, c: map<EventId, Event>)
    requires SameKeys(a, b) && SameKeys(b, c)
    ensures SameKeys(a, c)
  {}

  lemma RecordedStays(a: map<EventId, Event>, b: map<EventId, Event>, policy: PolicyId, start: Time, tr: Transition)
    requires SameKeys(a, b) && Recorded(a, policy, start, tr)
    ensures Recorded(b, policy, start, tr)
  {
    var id :| id in a && HasKey(a[id], policy, start, tr);
    assert HasKey(b[id], policy, start, tr);
  }

  lemma {:induction false} RecordMany(table: EventTable, f: Forecast, trs: seq<Transition>, why: Reason)
    requires f.start.Some? && f.end.Some?
    requires IdsBelowNext(table.events, table.nextId) && KeysUnique(table.events)
    ensures
      var later := RecordAll(table, f, trs, why);
      && IdsBelowNext(later.events, later.nextId) && KeysUnique(later.events)
      && SameKeys(table.events, later.events)
      && Added(table.events, later.events, f, trs)
      && (forall tr :: tr in trs ==> Recorded(later.events, f.policy, f.start.value, tr))
  {
    if trs != [] {
      var init, last := trs[..|trs| - 1], trs[|trs| - 1];
      var before := RecordAll(table, f, init, why);
      var later := RecordAll(table, f, trs, why);
      RecordMany(table, f, init, why);
      RecordOne(before, f, last, why);
      SameKeysTransitive(table.events, before.events, later.events);
      forall tr | tr in trs
        ensures Recorded(later.events, f.policy, f.start.value, tr)
      {
        if tr in init {
          RecordedStays(before.events, later.events, f.policy, f.start.value, tr);
        }
      }
      forall id | id in later.events && id !in table.events
        ensures later.events[id].policy == f.policy && later.events[id].start == f.start.value
        ensures later.events[id].transition in trs && !later.events[id].settled
        ensures later.events[id].status.Pending? || later.events[id].status.Suppressed?
      {
      }
    }
  }

  /** The tables' event rows after an acceptable forecast, before and after retiring. */
  ghost function RecordedEvents(t: Tables, f: Forecast, requested: Reason): EventTable
    requires Acceptable(t, f)
  {
    var why := Suppression(t.policies[f.policy], requested, f.generatedAt);
    RecordAll(EventTable(t.events, t.nextId), f, Transitions(Previous(t, f.policy), f.level.value, f.start.value), why)
  }

  lemma RetireKeeps(events: map<EventId, Event>, policy: PolicyId, start: Time, active: Option<Transition>, why: Reason)
    ensures SameKeys(events, RetireAll(events, policy, start, active, why))
    ensures KeysUnique(events) ==> KeysUnique(RetireAll(events, policy, start, active, why))
  {
    var later := RetireAll(events, policy, start, active, why);
    forall id | id in events
      ensures RowAfter(events[id], later[id])
    {
      RetiredRow(events[id], policy, start, active, why);
    }
    SameKeysStayUnique(events, later);
  }

  lemma RetiredRow(e: Event, policy: PolicyId, start: Time, active: Option<Transition>, why: Reason)
    ensures RowAfter(e, Retired(e, policy, start, active, why))
  {}

  lemma SameKeysStayUnique(events: map<EventId, Event>, later: map<EventId, Event>)
    requires SameKeys(events, later) && later.Keys == events.Keys
    ensures KeysUnique(events) ==> KeysUnique(later)
  {}

  // ---------- Delivery invariants ----------

  predicate WellSpaced(leases: seq<Time>) {
    forall i :: 0 < i < |leases| ==> leases[i] - leases[i - 1] >= 60000
  }

  /** One delivery row: its attempts count its leases, at most three and a minute apart. */
  predicate RowSound(d: Delivery, clock: Time) {
    && d.attempts == |d.leases| <= 3
    && WellSpaced(d.leases)
    && (d.status.Waiting? ==> d.attempts <= 2)
    && (d.status.InFlight? ==> 1 <= d.attempts)
    && (d.leases != [] ==> d.leases[|d.leases| - 1] <= clock)
    && (d.leases != [] && d.Open() ==> d.nextAt.Some? && d.nextAt.value >= d.leases[|d.leases| - 1] + 60000)
  }

  ghost predicate RowsSound(t: Tables) {
    forall k :: k in t.deliveries ==> RowSound(t.deliveries[k], t.clock)
  }

  ghost predicate RowsKnown(t: Tables) {
    forall k :: k in t.deliveries ==> k.event in t.events && Known(k.channel)
  }

  /** An event that is no longer pending has no open delivery. */
  ghost predicate OpenRowsPending(t: Tables) {
    forall k :: k in t.deliveries && t.deliveries[k].Open() ==> k.event in t.events && t.events[k.event].status.Pending?
  }

  /** Some delivery of the event has this status. */
  ghost predicate SomeRow(deliveries: map<DeliveryKey, Delivery>, event: EventId, status: DeliveryStatus) {
    exists k :: k in deliveries && k.event == event && deliveries[k].status == status
  }

  /** The status that an event's rows call for: failed if one was given up, delivered if none
      was and one was accepted, suppressed if neither happened. */
  ghost predicate StatusOfRows(deliveries: map<DeliveryKey, Delivery>, event: EventId, status: EventStatus) {
    && (status.Failed? <==> SomeRow(deliveries, event, Dropped))
    && (status.Delivered? <==> !SomeRow(deliveries, event, Dropped) && SomeRow(deliveries, event, Sent))
    && (status.Suppressed? <==> !SomeRow(deliveries, event, Dropped) && !SomeRow(deliveries, event, Sent))
  }

  lemma AggregateIsStatusOfRows(deliveries: map<DeliveryKey, Delivery>, event: EventId)
    ensures StatusOfRows(deliveries, event, Aggregate(deliveries, event))
  {}

  lemma StatusIsUnique(deliveries: map<DeliveryKey, Delivery>, event: EventId, a: EventStatus, b: EventStatus)
    requires StatusOfRows(deliveries, event, a) && StatusOfRows(deliveries, event, b)
    ensures a == b
  {
    hide SomeRow;
  }

  /** An event settled by the delivery calls has the status that its rows call for, and no
      other way leads to delivered or failed. */
  ghost predicate SettledRight(t: Tables) {
    forall id :: id in t.events ==>
      && (t.events[id].settled ==> StatusOfRows(t.deliveries, id, t.events[id].status))
      && (t.events[id].status.Delivered? || t.events[id].status.Failed? ==> t.events[id].settled)
      && (t.events[id].settled ==> !t.events[id].status.Pending?)
  }

  ghost predicate EventsSound(t: Tables) {
    && IdsBelowNext(t.events, t.nextId)
    && KeysUnique(t.events)
    && PolicyKnown(t.events, t.states)
    && PendingInPeriod(t.events, t.states)
    && OnePending(t.events)
    && RiskRecorded(t.events, t.states)
  }

  ghost predicate DeliveriesSound(t: Tables) {
    RowsKnown(t) && RowsSound(t) && OpenRowsPending(t) && SettledRight(t)
  }

  ghost predicate Sound(t: Tables) {
    EventsSound(t) && DeliveriesSound(t)
  }

  // ---------- Announcing keeps everything sound ----------

  lemma AnnounceKeepsRisk(t: Tables, f: Forecast, requested: Reason)
    requires EventsSound(t) && Acceptable(t, f)
    ensures RiskRecorded(Announced(t, f, requested).events, Announced(t, f, requested).states)
  {
    var start, level, previous := f.start.value, f.level.value, Previous(t, f.policy);
    var why := Suppression(t.policies[f.policy], requested, f.generatedAt);
    var mid, later := RecordedEvents(t, f, requested), Announced(t, f, requested);
    var active := Active(previous, level, start);
    RecordMany(EventTable(t.events, t.nextId), f, Transitions(previous, level, start), why);
    RetireKeeps(mid.events, f.policy, start, active, why);
    forall p | p in later.states && later.states[p].level.Risky()
      ensures Recorded(later.events, p, later.states[p].start, Entered(later.states[p].level))
    {
      if p == f.policy && active == Some(Entered(level)) {
        assert Entered(level) in Transitions(previous, level, start);
      } else {
        RecordedStays(t.events, mid.events, p, later.states[p].start, Entered(later.states[p].level));
      }
      RecordedStays(mid.events, later.events, p, later.states[p].start, Entered(later.states[p].level));
    }
  }

  /** A row that is pending after an announcement: another policy's was pending before; one
      of the announced policy is in the new period and, unless it announces the reset, was
      pending before, when there is nothing to announce, or is about what is announced. */
  lemma PendingAfter(t: Tables, f: Forecast, requested: Reason, id: EventId)
    requires EventsSound(t) && Acceptable(t, f)
    requires id in Announced(t, f, requested).events && Announced(t, f, requested).events[id].status.Pending?
    ensures
      var active := Active(Previous(t, f.policy), f.level.value, f.start.value);
      var e := Announced(t, f, requested).events[id];
      && (e.policy == f.policy ==> e.start == f.start.value)
      && (e.policy == f.policy && active.Some? && !e.transition.PeriodReset? ==> e.transition == active.value)
      && (e.policy != f.policy || (active.None? && !e.transition.PeriodReset?) ==>
            id in t.events && t.events[id].status.Pending? && HasKey(e, t.events[id].policy, t.events[id].start, t.events[id].transition))
  {
    var why := Suppression(t.policies[f.policy], requested, f.generatedAt);
    var active := Active(Previous(t, f.policy), f.level.value, f.start.value);
    var mid, trs := RecordedEvents(t, f, requested), Transitions(Previous(t, f.policy), f.level.value, f.start.value);
    RecordMany(EventTable(t.events, t.nextId), f, trs, why);
    assert id in mid.events && Announced(t, f, requested).events[id] == Retired(mid.events[id], f.policy, f.start.value, active, why);
    assert active.None? ==> forall tr :: tr in trs ==> tr.PeriodReset?;
    hide RecordAll, RecordedEvents, Announced, Active, Previous, Transitions, EventsSound, KeysUnique, Recorded, Suppression;
    RetiredPending(mid.events[id], f.policy, f.start.value, active, why);
    if id in t.events {
      assert RowAfter(t.events[id], mid.events[id]);
    }
  }

  lemma RetiredPending(e: Event, policy: PolicyId, start: Time, active: Option<Transition>, why: Reason)
    requires Retired(e, policy, start, active, why).status.Pending?
    ensures Retired(e, policy, start, active, why) == e && e.status.Pending?
    ensures e.policy == policy ==> e.start == start
    ensures e.policy == policy && active.Some? && !e.transition.PeriodReset? ==> e.transition == active.value
  {}

  lemma AnnouncedKeys(t: Tables, f: Forecast, requested: Reason)
    requires EventsSound(t) && Acceptable(t, f)
    ensures KeysUnique(Announced(t, f, requested).events)
    ensures IdsBelowNext(Announced(t, f, requested).events, Announced(t, f, requested).nextId)
    ensures SameKeys(t.events, Announced(t, f, requested).events)
    ensures Added(t.events, Announced(t, f, requested).events, f,
                  Transitions(Previous(t, f.policy), f.level.value, f.start.value))
  {
    var why := Suppression(t.policies[f.policy], requested, f.generatedAt);
    var mid, active := RecordedEvents(t, f, requested), Active(Previous(t, f.policy), f.level.value, f.start.value);
    RecordMany(EventTable(t.events, t.nextId), f, Transitions(Previous(t, f.policy), f.level.value, f.start.value), why);
    RetireKeeps(mid.events, f.policy, f.start.value, active, why);
    SameKeysTransitive(t.events, mid.events, Announced(t, f, requested).events);
    hide RecordAll, KeysUnique, OnePending, RiskRecorded, PolicyKnown, PendingInPeriod, Recorded;
  }

  lemma AnnounceKeepsPending(t: Tables, f: Forecast, requested: Reason)
    requires EventsSound(t) && Acceptable(t, f)
    ensures
      var later := Announced(t, f, requested);
      && PolicyKnown(later.events, later.states)
      && PendingInPeriod(later.events, later.states)
      && OnePending(later.events)
  {
    AnnouncedKeys(t, f, requested);
    AnnounceKeepsPolicies(t, f, requested);
    var later, active := Announced(t, f, requested), Active(Previous(t, f.policy), f.level.value, f.start.value);
    forall i, j | && i in later.events && j in later.events
                  && later.events[i].status.Pending? && later.events[j].status.Pending?
                  && later.events[i].policy == later.events[j].policy
                  && !later.events[i].transition.PeriodReset? && !later.events[j].transition.PeriodReset?
      ensures i == j
    {
      PendingAfter(t, f, requested, i);
      PendingAfter(t, f, requested, j);
      hide Announced, RecordAll, RiskRecorded, PolicyKnown, PendingInPeriod, IdsBelowNext, Active, Previous;
      if later.events[i].policy == f.policy && active.Some? {
        assert HasKey(later.events[j], later.events[i].policy, later.events[i].start, later.events[i].transition);
      } else {
        assert t.events[i].status.Pending? && t.events[j].status.Pending?;
      }
    }
  }

  lemma AnnounceKeepsPolicies(t: Tables, f: Forecast, requested: Reason)
    requires EventsSound(t) && Acceptable(t, f)
    ensures
      var later := Announced(t, f, requested);
      PolicyKnown(later.events, later.states) && PendingInPeriod(later.events, later.states)
  {
    AnnouncedKeys(t, f, requested);
    var later := Announced(t, f, requested);
    assert later.states == t.states[f.policy := PolicyState(f.start.value, f.end.value, f.level.value)];
    forall id | id in later.events
      ensures later.events[id].policy in later.states
      ensures later.events[id].status.Pending? ==> later.events[id].start == later.states[later.events[id].policy].start
    {
      if id in t.events {
        assert RowAfter(t.events[id], later.events[id]);
      }
      if later.events[id].status.Pending? {
        PendingAfter(t, f, requested, id);
      }
      hide Announced, RecordAll, RiskRecorded, KeysUnique, OnePending, Active, Previous;
    }
  }

  /** A disabled, snoozed or otherwise hard-suppressed policy keeps no pending event. */
  lemma HardSuppressionClearsPending(t: Tables, f: Forecast, requested: Reason, id: EventId)
    requires EventsSound(t) && Acceptable(t, f)
    requires Suppression(t.policies[f.policy], requested, f.generatedAt).Hard()
    requires id in Announced(t, f, requested).events && Announced(t, f, requested).events[id].policy == f.policy
    ensures !Announced(t, f, requested).events[id].status.Pending?
  {}

  lemma AnnounceKeepsEvents(t: Tables, f: Forecast, requested: Reason)
    requires EventsSound(t)
    ensures EventsSound(Announced(t, f, requested))
    ensures SameKeys(t.events, Announced(t, f, requested).events)
    ensures forall id :: id in Announced(t, f, requested).events && id !in t.events ==>
              && !Announced(t, f, requested).events[id].settled
              && (Announced(t, f, requested).events[id].status.Pending? || Announced(t, f, requested).events[id].status.Suppressed?)
  {
    if Acceptable(t, f) {
      AnnouncedKeys(t, f, requested);
      AnnounceKeepsPending(t, f, requested);
      AnnounceKeepsRisk(t, f, requested);
      hide Announced, KeysUnique, OnePending, RiskRecorded, PolicyKnown, PendingInPeriod;
    }
  }

  /** The status depends only on the statuses of the event's own rows. */
  lemma StatusLocal(a: map<DeliveryKey, Delivery>, b: map<DeliveryKey, Delivery>, event: EventId, status: EventStatus)
    requires forall k: DeliveryKey :: k.event == event ==> (k in a <==> k in b)
    requires forall k: DeliveryKey :: k.event == event && k in a ==> a[k].status == b[k].status
    requires StatusOfRows(a, event, status)
    ensures StatusOfRows(b, event, status)
  {
    forall s
      ensures SomeRow(a, event, s) == SomeRow(b, event, s)
    {
      if SomeRow(a, event, s) {
        var k :| k in a && k.event == event && a[k].status == s;
        assert k in b && b[k].status == s;
      }
      if SomeRow(b, event, s) {
        var k :| k in b && k.event == event && b[k].status == s;
        assert k in a && a[k].status == s;
      }
    }
  }

  lemma FollowKeepsDeliveries(t: Tables, later: Tables)
    requires DeliveriesSound(t) && SameKeys(t.events, later.events)
    requires forall id :: id in later.events && id !in t.events ==>
               && !later.events[id].settled
               && (later.events[id].status.Pending? || later.events[id].status.Suppressed?)
    requires later.deliveries == Muffled(t.deliveries, later.events) && later.clock == t.clock
    ensures DeliveriesSound(later)
  {
    hide StatusOfRows;
    forall id | id in later.events && later.events[id].settled
      ensures StatusOfRows(later.deliveries, id, later.events[id].status) && !later.events[id].status.Pending?
    {
      assert id in t.events && later.events[id] == t.events[id];
      StatusLocal(t.deliveries, later.deliveries, id, t.events[id].status);
    }
  }

  lemma AnnounceKeepsSound(t: Tables, f: Forecast, requested: Reason)
    requires Sound(t)
    ensures Sound(Announced(t, f, requested))
  {
    AnnounceKeepsEvents(t, f, requested);
    if Acceptable(t, f) {
      FollowKeepsDeliveries(t, Announced(t, f, requested));
    }
  }

  // ---------- Leasing and reporting keep everything sound ----------

  /** Changing only one event, from pending to closed, keeps the event invariants. */
  lemma SettlingKeepsEvents(t: Tables, later: Tables, event: EventId, status: EventStatus)
    requires EventsSound(t)
    requires event in t.events && t.events[event].status.Pending? && !status.Pending?
    requires later.events == t.events[event := t.events[event].(status := status, settled := true)]
    requires later.nextId == t.nextId && later.states == t.states
    ensures EventsSound(later)
  {
    forall p | p in later.states && later.states[p].level.Risky()
      ensures Recorded(later.events, p, later.states[p].start, Entered(later.states[p].level))
    {
      var id :| id in t.events && HasKey(t.events[id], p, t.states[p].start, Entered(t.states[p].level));
      assert HasKey(later.events[id], p, later.states[p].start, Entered(later.states[p].level));
    }
    forall i, j | && i in later.events && j in later.events
                  && HasKey(later.events[j], later.events[i].policy, later.events[i].start, later.events[i].transition)
      ensures i == j
    {
      assert HasKey(t.events[j], t.events[i].policy, t.events[i].start, t.events[i].transition);
    }
  }

  /** How far a row is from being closed: falls with every change. */
  function Rank(d: Delivery): int {
    match d.status
    case Waiting => 7 - 2 * d.attempts
    case InFlight => 8 - 2 * d.attempts
    case _ => 0
  }

  lemma LeasedRowSound(t: Tables, call: LeaseCall, channel: Channel, d: Delivery)
    requires call.event in t.events && RowSound(d, t.clock) && t.clock <= call.now
    ensures
      var later := LeasedRow(t, call, channel, d);
      && RowSound(later, call.now)
      && (later == d || Rank(later) < Rank(d))
      && d.leases <= later.leases
      && (!d.Open() ==> later == d)
      && (later.Open() ==> d.Open() && !StaleEvent(t.events[call.event], call.now))
  {}

  lemma LeaseKeepsRows(t: Tables, call: LeaseCall)
    requires Sound(t) && t.clock <= call.now && call.event in t.events
    ensures
      var rows := LeasedRows(t, call, Snapshot(t, call));
      && (forall k :: k in t.deliveries ==> k in rows)
      && (forall k :: k in rows ==> k.event in t.events && Known(k.channel) && RowSound(rows[k], call.now))
      && (forall k :: k in rows && rows[k].Open() ==> t.events[k.event].status.Pending?)
      && (forall k :: k in rows && k.event != call.event ==> k in t.deliveries && rows[k] == t.deliveries[k])
      && (forall k :: k in t.deliveries && !t.deliveries[k].Open() ==> rows[k] == t.deliveries[k])
      && (forall k :: k in rows && k !in t.deliveries ==>
            !EventHasRows(t.deliveries, call.event) && t.events[call.event].status.Pending?)
  {
    hide EventsSound, SettledRight, LeasedRow;
    var chosen := Snapshot(t, call);
    var rows := LeasedRows(t, call, chosen);
    forall k | k in rows
      ensures k.event in t.events && Known(k.channel) && RowSound(rows[k], call.now)
      ensures !chosen[k].Open() ==> rows[k] == chosen[k]
      ensures rows[k].Open() ==> t.events[k.event].status.Pending?
    {
      assert RowSound(chosen[k], t.clock);
      LeasedRowSound(t, call, k.channel, chosen[k]);
    }
  }

  lemma LeaseKeepsSound(t: Tables, call: LeaseCall)
    requires Sound(t) && t.clock <= call.now
    ensures Sound(Prepared(t, call))
  {
    hide EventsSound, StatusOfRows, LeasedRow, RowSound;
    if call.event in t.events {
      LeaseKeepsRows(t, call);
      var rows := LeasedRows(t, call, Snapshot(t, call));
      AggregateIsStatusOfRows(rows, call.event);
      SettleKeepsSound(t, rows, call.event, Aggregate(rows, call.event), call.now);
    }
  }

  /** Only rows of this event change, none of them reopens, and new ones are a pending event's. */
  ghost predicate RowsReplaced(t: Tables, rows: map<DeliveryKey, Delivery>, event: EventId, now: Time) {
    && event in t.events
    && (forall k :: k in t.deliveries ==> k in rows)
    && (forall k :: k in rows ==> k.event in t.events && Known(k.channel) && RowSound(rows[k], now))
    && (forall k :: k in rows && rows[k].Open() ==> t.events[k.event].status.Pending?)
    && (forall k :: k in rows && k.event != event ==> k in t.deliveries && rows[k] == t.deliveries[k])
    && (forall k :: k in t.deliveries && !t.deliveries[k].Open() ==> rows[k] == t.deliveries[k])
    && (forall k :: k in rows && k !in t.deliveries ==> t.events[event].status.Pending?)
  }

  /** A settled event's status outlives the replacement. */
  lemma StatusStays(t: Tables, rows: map<DeliveryKey, Delivery>, event: EventId, now: Time, id: EventId)
    requires DeliveriesSound(t) && RowsReplaced(t, rows, event, now) && id in t.events && t.events[id].settled
    ensures StatusOfRows(rows, id, t.events[id].status)
  {
    hide StatusOfRows, RowSound;
    StatusLocal(t.deliveries, rows, id, t.events[id].status);
  }

  lemma SettleKeepsDeliveries(t: Tables, rows: map<DeliveryKey, Delivery>, event: EventId, status: EventStatus, now: Time)
    requires DeliveriesSound(t) && RowsReplaced(t, rows, event, now)
    requires !EventHasOpenRows(rows, event) ==> StatusOfRows(rows, event, status) && !status.Pending?
    ensures DeliveriesSound(Settled(t.(deliveries := rows, clock := now), event, status))
  {
    var later := Settled(t.(deliveries := rows, clock := now), event, status);
    hide StatusOfRows, RowSound;
    forall id | id in t.events && t.events[id].settled
      ensures StatusOfRows(rows, id, later.events[id].status)
    {
      StatusStays(t, rows, event, now, id);
    }
  }

  /** Replacing the rows of one event and then settling it keeps everything sound. */
  lemma SettleKeepsSound(t: Tables, rows: map<DeliveryKey, Delivery>, event: EventId, status: EventStatus, now: Time)
    requires Sound(t) && RowsReplaced(t, rows, event, now)
    requires !EventHasOpenRows(rows, event) ==> StatusOfRows(rows, event, status) && !status.Pending?
    ensures Sound(Settled(t.(deliveries := rows, clock := now), event, status))
  {
    var mid := t.(deliveries := rows, clock := now);
    var later := Settled(mid, event, status);
    SettleKeepsDeliveries(t, rows, event, status, now);
    hide DeliveriesSound, RowsReplaced, EventHasOpenRows, StatusOfRows;
    if later != mid {
      SettlingKeepsEvents(mid, later, event, status);
    }
  }

  lemma ReportedRowSound(d: Delivery, call: ReportCall, clock: Time)
    requires RowSound(d, clock) && clock <= call.now && d.status.InFlight?
    ensures
      var later := Reported(d, call);
      && RowSound(later, call.now)
      && Rank(later) < Rank(d)
      && later.leases == d.leases
      && (later.status.Sent? || later.status.Dropped? || later.Open())
  {}

  /** A report closes its row, so the shorter case distinction of a report is enough. */
  lemma ReportSettles(rows: map<DeliveryKey, Delivery>, key: DeliveryKey)
    requires key in rows && !EventHasOpenRows(rows, key.event) && (rows[key].status.Sent? || rows[key].status.Dropped? || rows[key].Open())
    ensures StatusOfRows(rows, key.event, if EventHas(rows, key.event, Dropped) then Failed else Delivered)
  {
    assert !rows[key].Open();
    assert SomeRow(rows, key.event, rows[key].status);
  }

  lemma ReportKeepsSound(t: Tables, call: ReportCall)
    requires Sound(t) && t.clock <= call.now
    ensures Sound(Completed(t, call))
  {
    hide EventsSound;
    var key := DeliveryKey(call.event, call.channel);
    if key in t.deliveries && t.deliveries[key].status.InFlight? && call.event in t.events {
      var rows := t.deliveries[key := Reported(t.deliveries[key], call)];
      var status := if EventHas(rows, call.event, Dropped) then Failed else Delivered;
      ReportedRowSound(t.deliveries[key], call, t.clock);
      hide Reported;
      if !EventHasOpenRows(rows, call.event) {
        ReportSettles(rows, key);
      }
      SettleKeepsSound(t, rows, call.event, status, call.now);
    }
  }

  // ---------- Whole runs ----------

  ghost function Run(t: Tables, calls: seq<Call>): Tables {
    if calls == [] then t else Apply(Run(t, calls[..|calls| - 1]), calls[|calls| - 1])
  }

  ghost predicate TimelyRun(t: Tables, calls: seq<Call>) {
    calls != [] ==>
      TimelyRun(t, calls[..|calls| - 1]) && Timely(Run(t, calls[..|calls| - 1]), calls[|calls| - 1])
  }

  /** Tables before the first announcement. */
  predicate Untouched(t: Tables) {
    t.events == map[] && t.states == map[] && t.deliveries == map[]
  }

  lemma ApplyKeepsSound(t: Tables, call: Call)
    requires Sound(t) && Timely(t, call)
    ensures Sound(Apply(t, call))
  {
    match call
    case Announce(f, requested) => AnnounceKeepsSound(t, f, requested);
    case Lease(l) => LeaseKeepsSound(t, l);
    case Report(r) => ReportKeepsSound(t, r);
  }

  /** Every state reachable from untouched tables is sound. */
  lemma {:induction false} ReachableIsSound(t: Tables, calls: seq<Call>)
    requires Untouched(t) && TimelyRun(t, calls)
    ensures Sound(Run(t, calls))
  {
    if calls != [] {
      ReachableIsSound(t, calls[..|calls| - 1]);
      ApplyKeepsSound(Run(t, calls[..|calls| - 1]), calls[|calls| - 1]);
    }
  }

  // ---------- What one step may change ----------

  /** Rows only move down their rank, and only gain leases. */
  ghost predicate RowsFall(t: Tables, later: Tables) {
    forall k :: k in t.deliveries ==>
      && k in later.deliveries
      && (later.deliveries[k] == t.deliveries[k] || Rank(later.deliveries[k]) < Rank(t.deliveries[k]))
      && t.deliveries[k].leases <= later.deliveries[k].leases
  }

  /** Once an event has rows, its channels are fixed. */
  ghost predicate ChannelsFixed(t: Tables, later: Tables) {
    forall k :: k in later.deliveries && EventHasRows(t.deliveries, k.event) ==> k in t.deliveries
  }

  /** An event that is no longer pending never changes again. */
  ghost predicate ClosedFrozen(t: Tables, later: Tables) {
    forall id :: id in t.events ==>
      id in later.events && (!t.events[id].status.Pending? ==> later.events[id] == t.events[id])
  }

  /** Only pending events get rows. */
  ghost predicate RowsForPending(t: Tables, later: Tables) {
    forall k :: k in later.deliveries && k !in t.deliveries ==> k.event in t.events && t.events[k.event].status.Pending?
  }

  lemma StepIsMonotone(t: Tables, call: Call)
    requires Sound(t) && Timely(t, call)
    ensures RowsFall(t, Apply(t, call)) && ChannelsFixed(t, Apply(t, call)) && ClosedFrozen(t, Apply(t, call))
    ensures RowsForPending(t, Apply(t, call))
  {
    match call
    case Announce(f, requested) =>
      AnnounceKeepsEvents(t, f, requested);
      if Acceptable(t, f) {
        FollowIsMonotone(t, Announced(t, f, requested));
      }
    case Lease(l) => LeaseIsMonotone(t, l);
    case Report(r) => ReportIsMonotone(t, r);
  }

  lemma FollowIsMonotone(t: Tables, later: Tables)
    requires Sound(t) && SameKeys(t.events, later.events) && later.deliveries == Muffled(t.deliveries, later.events)
    ensures RowsFall(t, later) && ChannelsFixed(t, later) && ClosedFrozen(t, later) && RowsForPending(t, later)
  {
    hide EventsSound;
    forall k | k in t.deliveries
      ensures later.deliveries[k] == t.deliveries[k] || Rank(later.deliveries[k]) < Rank(t.deliveries[k])
    {
      assert RowSound(t.deliveries[k], t.clock);
    }
  }

  lemma LeaseIsMonotone(t: Tables, call: LeaseCall)
    requires Sound(t) && t.clock <= call.now
    ensures RowsFall(t, Prepared(t, call)) && ChannelsFixed(t, Prepared(t, call)) && ClosedFrozen(t, Prepared(t, call))
    ensures RowsForPending(t, Prepared(t, call))
  {
    if call.event in t.events {
      LeaseKeepsRows(t, call);
      var chosen := Snapshot(t, call);
      forall k | k in t.deliveries && k.event == call.event
        ensures
          var d := LeasedRows(t, call, chosen)[k];
          (d == t.deliveries[k] || Rank(d) < Rank(t.deliveries[k])) && t.deliveries[k].leases <= d.leases
      {
        assert RowSound(t.deliveries[k], t.clock);
        LeasedRowSound(t, call, k.channel, t.deliveries[k]);
      }
    }
  }

  lemma ReportIsMonotone(t: Tables, call: ReportCall)
    requires Sound(t) && t.clock <= call.now
    ensures RowsFall(t, Completed(t, call)) && ChannelsFixed(t, Completed(t, call)) && ClosedFrozen(t, Completed(t, call))
    ensures RowsForPending(t, Completed(t, call))
  {
    hide EventsSound, EventHas, EventHasOpenRows, Aggregate;
    var key := DeliveryKey(call.event, call.channel);
    if key in t.deliveries && t.deliveries[key].status.InFlight? {
      ReportedRowSound(t.deliveries[key], call, t.clock);
    }
  }

  /** How often the row `k` changes over a run. */
  ghost function Changes(t: Tables, calls: seq<Call>, k: DeliveryKey): nat {
    if calls == [] then 0
    else
      var before, after := Run(t, calls[..|calls| - 1]), Run(t, calls);
      Changes(t, calls[..|calls| - 1], k)
      + if k in before.deliveries && (k !in after.deliveries || after.deliveries[k] != before.deliveries[k]) then 1 else 0
  }

  /** A delivery settles within seven changes, leased at most three times at least a
      minute apart, and a row closed once stays as it is. */
  lemma {:induction false} DeliverySettles(t: Tables, calls: seq<Call>, k: DeliveryKey)
    requires Untouched(t) && TimelyRun(t, calls)
    requires k in Run(t, calls).deliveries
    ensures
      var d := Run(t, calls).deliveries[k];
      && Changes(t, calls, k) + Rank(d) <= 7
      && Rank(d) >= 0
      && (Rank(d) == 0 <==> !d.Open())
      && |d.leases| <= 3 && WellSpaced(d.leases)
  {
    ReachableIsSound(t, calls);
    assert RowSound(Run(t, calls).deliveries[k], Run(t, calls).clock);
    if calls != [] {
      var init, last := calls[..|calls| - 1], calls[|calls| - 1];
      ReachableIsSound(t, init);
      if k in Run(t, init).deliveries {
        DeliverySettles(t, init, k);
        StepIsMonotone(Run(t, init), last);
      } else {
        NoRowNoChange(t, init, k);
      }
    }
  }

  lemma {:induction false} NoRowNoChange(t: Tables, calls: seq<Call>, k: DeliveryKey)
    requires Untouched(t) && TimelyRun(t, calls)
    requires k !in Run(t, calls).deliveries
    ensures Changes(t, calls, k) == 0
  {
    if calls != [] {
      var init, last := calls[..|calls| - 1], calls[|calls| - 1];
      ReachableIsSound(t, init);
      StepIsMonotone(Run(t, init), last);
      NoRowNoChange(t, init, k);
    }
  }

  // ---------- Events without a channel ----------

  /** The call prepares a current event for the first time, with no known channel enabled. */
  ghost predicate FindsNoChannel(t: Tables, call: LeaseCall) {
    && call.event in t.events && !StaleEvent(t.events[call.event], call.now)
    && !EventHasRows(t.deliveries, call.event)
    && forall c :: c in call.enabled ==> !Known(c)
  }

  ghost predicate SuppressedWithoutRows(t: Tables, event: EventId) {
    && event in t.events && t.events[event].status.Suppressed? && t.events[event].settled
    && !EventHasRows(t.deliveries, event)
  }

  lemma NoChannelSuppresses(t: Tables, call: LeaseCall)
    requires FindsNoChannel(t, call)
    ensures SuppressedWithoutRows(Prepared(t, call), call.event)
  {
    assert WaitingRows(call.event, call.enabled) == map[];
    assert Snapshot(t, call) == t.deliveries;
    assert !EventHasRows(LeasedRows(t, call, t.deliveries), call.event);
  }

  /** An event whose first preparation finds no known channel is closed by it as suppressed
      and never gets a delivery, whatever is enabled later. */
  lemma {:induction false} NoChannelNoDelivery(t: Tables, calls: seq<Call>, n: nat)
    requires Untouched(t) && TimelyRun(t, calls)
    requires n < |calls| && calls[n].Lease? && FindsNoChannel(Run(t, calls[..n]), calls[n].lease)
    ensures SuppressedWithoutRows(Run(t, calls), calls[n].lease.event)
  {
    var init := calls[..|calls| - 1];
    if n == |calls| - 1 {
      NoChannelSuppresses(Run(t, init), calls[n].lease);
    } else {
      assert init[..n] == calls[..n] && init[n] == calls[n];
      NoChannelNoDelivery(t, init, n);
      ReachableIsSound(t, init);
      StepIsMonotone(Run(t, init), calls[|calls| - 1]);
    }
  }
}
