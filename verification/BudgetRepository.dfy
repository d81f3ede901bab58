/** The budget repository as an object that updates its tables call by call. */
module BudgetRepository {
  import opened Bounds
  import opened Options
  import opened BudgetTables
  import opened BudgetRuns

  /** One row of the list handed to the notifier. */
  datatype Announcement = Announcement(event: EventId, transition: Transition, status: EventStatus, reason: Reason,
                                       deliver: bool)

  function Describe(id: EventId, e: Event, why: Reason): Announcement {
    Announcement(id, e.transition, e.status, e.reason, e.status.Pending? && why.NoReason?)
  }

  /** The rows of the announced period that are listed again because they are pending. */
  predicate Remaining(e: Event, policy: PolicyId, start: Time) {
    e.policy == policy && e.start == start && e.status.Pending?
  }

  function SupersededRow(e: Event, policy: PolicyId, start: Time, active: Option<Transition>): Event {
    if active.Some? && Remaining(e, policy, start) && e.transition != active.value && !e.transition.PeriodReset?
    then e.(status := Suppressed, reason := Superseded)
    else e
  }

  function Remainder(e: Event, policy: PolicyId, start: Time, why: Reason, listed: bool): Event {
    if Remaining(e, policy, start) && !listed then Closed(e, why) else e
  }

  /** The listing, in id order, of the remaining rows with ids below `n`. */
  function RemainingList(events: map<EventId, Event>, n: EventId, policy: PolicyId, start: Time, why: Reason,
                         included: set<EventId>): seq<Announcement>
  {
    if n == 0 then []
    else
      RemainingList(events, n - 1, policy, start, why, included)
      + if n - 1 in events && n - 1 !in included && Remaining(events[n - 1], policy, start)
        then [Describe(n - 1, Closed(events[n - 1], why), why)] else []
  }

  lemma {:induction false} RemainingListed(events: map<EventId, Event>, n: EventId, policy: PolicyId, start: Time,
                                           why: Reason, included: set<EventId>)
    ensures
      var list := RemainingList(events, n, policy, start, why, included);
      && (forall a :: a in list ==>
            && a.event < n && a.event in events && a.event !in included && Remaining(events[a.event], policy, start)
            && a == Describe(a.event, Closed(events[a.event], why), why))
      && (forall id :: id < n && id in events && id !in included && Remaining(events[id], policy, start) ==>
            Describe(id, Closed(events[id], why), why) in list)
  {
    if n > 0 {
      RemainingListed(events, n - 1, policy, start, why, included);
    }
  }

  /** The table once the ids below `n` have been visited. */
  function RemainderAll(events: map<EventId, Event>, n: EventId, policy: PolicyId, start: Time, why: Reason,
                        included: set<EventId>): map<EventId, Event>
  {
    map id | id in events :: if id < n then Remainder(events[id], policy, start, why, id in included) else events[id]
  }

  lemma RemainderStep(events: map<EventId, Event>, n: EventId, policy: PolicyId, start: Time, why: Reason,
                      included: set<EventId>)
    ensures
      var before, after := RemainderAll(events, n, policy, start, why, included), RemainderAll(events, n + 1, policy, start, why, included);
      after == if n in events then before[n := Remainder(events[n], policy, start, why, n in included)] else before
  {}

  function StaleRow(e: Event, policy: PolicyId, start: Time): Event {
    if e.policy == policy && e.status.Pending? && e.start != start
    then e.(status := Suppressed, reason := Stale)
    else e
  }

  function StaleAll(events: map<EventId, Event>, policy: PolicyId, start: Time): map<EventId, Event> {
    map id | id in events :: StaleRow(events[id], policy, start)
  }

  /** Superseding, closing the remaining rows and dropping stale ones retire a row together. */
  lemma RetiredInStages(e: Event, listed: bool, policy: PolicyId, start: Time, active: Option<Transition>, why: Reason)
    requires listed ==> !why.Hard() || !e.status.Pending?
    ensures
      var e1 := SupersededRow(e, policy, start, active);
      StaleRow(Remainder(e1, policy, start, why, listed), policy, start) == Retired(e, policy, start, active, why)
  {}

  /** A listed row as it stands after its transition was recorded. */
  predicate Entry(events: map<EventId, Event>, a: Announcement, policy: PolicyId, start: Time, transition: Transition,
                  why: Reason)
  {
    && a.event in events
    && a == Describe(a.event, events[a.event], why)
    && HasKey(events[a.event], policy, start, transition)
    && (why.Hard() ==> !events[a.event].status.Pending?)
  }

  /** The returned list shows rows of this policy as they now are, every pending one among them. */
  ghost predicate Reflects(list: seq<Announcement>, events: map<EventId, Event>, policy: PolicyId, why: Reason) {
    && (forall a :: a in list ==>
          a.event in events && events[a.event].policy == policy && a == Describe(a.event, events[a.event], why))
    && (forall id :: id in events && events[id].policy == policy && events[id].status.Pending? ==>
          Describe(id, events[id], why) in list)
  }

  /** Without suppression the rows to deliver are exactly the policy's pending events. */
  lemma DeliverIsPending(list: seq<Announcement>, events: map<EventId, Event>, policy: PolicyId, id: EventId)
    requires Reflects(list, events, policy, NoReason)
    ensures (exists a :: a in list && a.event == id && a.deliver)
            <==> id in events && events[id].policy == policy && events[id].status.Pending?
  {
    if id in events && events[id].policy == policy && events[id].status.Pending? {
      assert Describe(id, events[id], NoReason).deliver;
    }
  }

  /** With unique keys, recording an existing transition touches that row alone. */
  lemma RecordByUpdate(table: EventTable, id: EventId, f: Forecast, tr: Transition, why: Reason)
    requires f.start.Some? && f.end.Some?
    requires KeysUnique(table.events)
    requires id in table.events && HasKey(table.events[id], f.policy, f.start.value, tr)
    ensures Record(table, f, tr, why) == table.(events := table.events[id := Closed(table.events[id], why)])
  {
    assert Recorded(table.events, f.policy, f.start.value, tr);
    var e := table.events[id];
    forall j | j in table.events && HasKey(table.events[j], f.policy, f.start.value, tr)
      ensures j == id
    {
      assert HasKey(table.events[j], e.policy, e.start, e.transition);
    }
  }

  /** Row `id` is about the transition, closed under a hard suppression, and no other row changed. */
  ghost predicate OnlyRow(events: map<EventId, Event>, later: map<EventId, Event>, id: EventId, f: Forecast, tr: Transition,
                          why: Reason)
    requires f.start.Some?
  {
    && id in later && HasKey(later[id], f.policy, f.start.value, tr)
    && (why.Hard() ==> !later[id].status.Pending?)
    && forall j :: j in events && !HasKey(events[j], f.policy, f.start.value, tr) ==> j != id && j in later && later[j] == events[j]
  }

  lemma ExistingRow(table: EventTable, id: EventId, f: Forecast, tr: Transition, why: Reason)
    requires f.start.Some? && f.end.Some?
    requires KeysUnique(table.events) && IdsBelowNext(table.events, table.nextId)
    requires id in table.events && HasKey(table.events[id], f.policy, f.start.value, tr)
    ensures
      var e := table.events[id];
      var row := if e.status.Pending? && why.Hard() then e.(status := Suppressed, reason := why) else e;
      var later := table.events[id := row];
      && EventTable(later, table.nextId) == Record(table, f, tr, why)
      && OnlyRow(table.events, later, id, f, tr, why)
      && KeysUnique(later) && IdsBelowNext(later, table.nextId)
      && (row == e ==> later == table.events)
  {
    RecordOne(table, f, tr, why);
    RecordByUpdate(table, id, f, tr, why);
    hide KeysUnique, IdsBelowNext, SameKeys, Added, Record, Recorded;
    assert table.events[id := table.events[id]] == table.events;
  }

  lemma FreshRow(table: EventTable, f: Forecast, tr: Transition, why: Reason)
    requires f.start.Some? && f.end.Some?
    requires KeysUnique(table.events) && IdsBelowNext(table.events, table.nextId)
    requires !Recorded(table.events, f.policy, f.start.value, tr)
    ensures
      var later := table.events[table.nextId := Fresh(f, tr, why)];
      && EventTable(later, table.nextId + 1) == Record(table, f, tr, why)
      && OnlyRow(table.events, later, table.nextId, f, tr, why)
      && KeysUnique(later) && IdsBelowNext(later, table.nextId + 1)
  {
    RecordOne(table, f, tr, why);
    hide KeysUnique, SameKeys, Added;
  }

  /** The rows listed for the transitions, at most one of which is not a period reset. */
  ghost predicate ListsTransitions(listed: seq<Announcement>, mid: map<EventId, Event>, f: Forecast,
                                   active: Option<Transition>, why: Reason)
  {
    f.start.Some? && forall a :: a in listed ==>
      && a.event in mid
      && (a.transition.PeriodReset? || active == Some(a.transition))
      && Entry(mid, a, f.policy, f.start.value, a.transition, why)
  }

  function SupersedeAll(events: map<EventId, Event>, policy: PolicyId, start: Time, active: Option<Transition>)
    : map<EventId, Event>
  {
    map id | id in events :: SupersededRow(events[id], policy, start, active)
  }

  lemma TransitionsListed(listed: seq<Announcement>, mid: map<EventId, Event>, transitions: seq<Transition>,
                          f: Forecast, active: Option<Transition>, why: Reason)
    requires f.start.Some? && |listed| == |transitions|
    requires forall i :: 0 <= i < |listed| ==> Entry(mid, listed[i], f.policy, f.start.value, transitions[i], why)
    requires forall tr :: tr in transitions ==> tr.PeriodReset? || active == Some(tr)
    ensures ListsTransitions(listed, mid, f, active, why)
  {
    forall a | a in listed
      ensures a.event in mid && (a.transition.PeriodReset? || active == Some(a.transition))
      ensures Entry(mid, a, f.policy, f.start.value, a.transition, why)
    {
      var i :| 0 <= i < |listed| && listed[i] == a;
      assert transitions[i] in transitions;
    }
  }

  lemma ListedShown(mid: map<EventId, Event>, f: Forecast, active: Option<Transition>, why: Reason,
                    listed: seq<Announcement>, a: Announcement)
    requires ListsTransitions(listed, mid, f, active, why) && a in listed
    ensures
      var final := RetireAll(mid, f.policy, f.start.value, active, why);
      a.event in final && final[a.event].policy == f.policy && a == Describe(a.event, final[a.event], why)
  {
    assert Entry(mid, a, f.policy, f.start.value, a.transition, why);
  }

  lemma RestShown(mid: map<EventId, Event>, n: EventId, f: Forecast, active: Option<Transition>, why: Reason,
                  included: set<EventId>, a: Announcement)
    requires f.start.Some?
    requires a in RemainingList(SupersedeAll(mid, f.policy, f.start.value, active), n, f.policy, f.start.value, why, included)
    ensures
      var final := RetireAll(mid, f.policy, f.start.value, active, why);
      a.event in final && final[a.event].policy == f.policy && a == Describe(a.event, final[a.event], why)
  {
    RemainingListed(SupersedeAll(mid, f.policy, f.start.value, active), n, f.policy, f.start.value, why, included);
  }

  lemma PendingShown(mid: map<EventId, Event>, n: EventId, f: Forecast, active: Option<Transition>, why: Reason,
                     included: set<EventId>, id: EventId)
    requires f.start.Some? && IdsBelowNext(mid, n) && id in mid && id !in included
    requires
      var e := Retired(mid[id], f.policy, f.start.value, active, why);
      e.policy == f.policy && e.status.Pending?
    ensures Describe(id, Retired(mid[id], f.policy, f.start.value, active, why), why)
            in RemainingList(SupersedeAll(mid, f.policy, f.start.value, active), n, f.policy, f.start.value, why, included)
  {
    RemainingListed(SupersedeAll(mid, f.policy, f.start.value, active), n, f.policy, f.start.value, why, included);
    assert Remaining(SupersedeAll(mid, f.policy, f.start.value, active)[id], f.policy, f.start.value);
  }

  /** What the whole list shows once the rows are retired. */
  lemma ListReflects(mid: map<EventId, Event>, n: EventId, f: Forecast, active: Option<Transition>, why: Reason,
                     listed: seq<Announcement>, rest: seq<Announcement>, included: set<EventId>)
    requires ListsTransitions(listed, mid, f, active, why) && IdsBelowNext(mid, n)
    requires included == set a | a in listed :: a.event
    requires rest == RemainingList(SupersedeAll(mid, f.policy, f.start.value, active), n, f.policy, f.start.value, why, included)
    ensures Reflects(listed + rest, RetireAll(mid, f.policy, f.start.value, active, why), f.policy, why)
  {
    var final := RetireAll(mid, f.policy, f.start.value, active, why);
    forall a | a in listed + rest
      ensures a.event in final && final[a.event].policy == f.policy && a == Describe(a.event, final[a.event], why)
    {
      if a in listed {
        ListedShown(mid, f, active, why, listed, a);
      } else {
        RestShown(mid, n, f, active, why, included, a);
      }
    }
    forall id | id in final && final[id].policy == f.policy && final[id].status.Pending?
      ensures Describe(id, final[id], why) in listed + rest
    {
      if id in included {
        var a :| a in listed && a.event == id;
        ListedShown(mid, f, active, why, listed, a);
      } else {
        PendingShown(mid, n, f, active, why, included, id);
      }
    }
  }

  /** The three updates of the event table retire it, given that listed rows are settled. */
  lemma StagesRetire(mid: map<EventId, Event>, n: EventId, included: set<EventId>, policy: PolicyId, start: Time,
                     active: Option<Transition>, why: Reason)
    requires IdsBelowNext(mid, n)
    requires forall id :: id in mid && id in included ==> !why.Hard() || !mid[id].status.Pending?
    ensures StaleAll(RemainderAll(SupersedeAll(mid, policy, start, active), n, policy, start, why, included), policy, start)
            == RetireAll(mid, policy, start, active, why)
  {
    forall id | id in mid {
      RetiredInStages(mid[id], id in included, policy, start, active, why);
    }
  }

  lemma RetiringWorks(mid: map<EventId, Event>, n: EventId, f: Forecast, active: Option<Transition>, why: Reason,
                      listed: seq<Announcement>, rest: seq<Announcement>, included: set<EventId>)
    requires ListsTransitions(listed, mid, f, active, why) && IdsBelowNext(mid, n)
    requires included == set a | a in listed :: a.event
    requires rest == RemainingList(SupersedeAll(mid, f.policy, f.start.value, active), n, f.policy, f.start.value, why, included)
    ensures
      var start := f.start.value;
      var final := StaleAll(RemainderAll(SupersedeAll(mid, f.policy, start, active), n, f.policy, start, why, included), f.policy, start);
      && final == RetireAll(mid, f.policy, start, active, why)
      && Reflects(listed + rest, final, f.policy, why)
  {
    forall id | id in mid && id in included
      ensures !why.Hard() || !mid[id].status.Pending?
    {
      var a :| a in listed && a.event == id;
      assert Entry(mid, a, f.policy, f.start.value, a.transition, why);
    }
    StagesRetire(mid, n, included, f.policy, f.start.value, active, why);
    ListReflects(mid, n, f, active, why, listed, rest, included);
  }

  // ---------- Leasing one row after another ----------

  /** Inserting one more channel's row, unless it is unknown or already there. */
  lemma ChooseStep(before: map<DeliveryKey, Delivery>, event: EventId, channels: seq<Channel>, channel: Channel)
    requires !EventHasRows(before, event)
    ensures
      var rows, key := before + WaitingRows(event, channels), DeliveryKey(event, channel);
      before + WaitingRows(event, channels + [channel])
      == if Known(channel) && key !in rows then rows[key := FRESH] else rows
  {
    assert DeliveryKey(event, channel) !in before;
  }

  /** The row is leased by this call. */
  predicate IsLeased(t: Tables, call: LeaseCall, k: DeliveryKey, d: Delivery)
    requires call.event in t.events
  {
    LeasedRow(t, call, k.channel, d).attempts > d.attempts
  }

  /** The rows while those in `todo` still wait to be visited. */
  function Visited(t: Tables, call: LeaseCall, chosen: map<DeliveryKey, Delivery>, todo: set<DeliveryKey>)
    : map<DeliveryKey, Delivery>
    requires call.event in t.events
  {
    map k | k in chosen ::
      if k.event == call.event && k !in todo then LeasedRow(t, call, k.channel, chosen[k]) else chosen[k]
  }

  lemma VisitOne(t: Tables, call: LeaseCall, chosen: map<DeliveryKey, Delivery>, todo: set<DeliveryKey>, k: DeliveryKey)
    requires call.event in t.events && k in chosen && k in todo && k.event == call.event
    ensures Visited(t, call, chosen, todo)[k] == chosen[k]
    ensures Visited(t, call, chosen, todo - {k})
            == Visited(t, call, chosen, todo)[k := LeasedRow(t, call, k.channel, chosen[k])]
  {}

  predicate Accepted(rows: map<DeliveryKey, Delivery>, k: DeliveryKey) {
    k in rows && rows[k].sentAt.Some?
  }

  ghost predicate SameAcceptances(a: map<DeliveryKey, Delivery>, b: map<DeliveryKey, Delivery>) {
    forall k :: Accepted(a, k) || Accepted(b, k) ==> Accepted(a, k) && Accepted(b, k) && a[k].sentAt == b[k].sentAt
  }

  lemma CoolingSame(a: map<DeliveryKey, Delivery>, b: map<DeliveryKey, Delivery>, events: map<EventId, Event>,
                    policy: PolicyId, channel: Channel, now: Time, minutes: int)
    requires SameAcceptances(a, b)
    requires CoolingDown(a, events, policy, channel, now, minutes)
    ensures CoolingDown(b, events, policy, channel, now, minutes)
  {
    var k :| && k in a && k.channel == channel && a[k].sentAt.Some?
             && k.event in events && events[k.event].policy == policy
             && SecondsTo(a[k].sentAt.value, now) < Max(0, minutes) * 60;
    assert Accepted(a, k);
  }

  /** Neither choosing rows nor leasing them records an acceptance. */
  lemma VisitingAccepts(t: Tables, call: LeaseCall, todo: set<DeliveryKey>)
    requires call.event in t.events
    ensures SameAcceptances(Visited(t, call, Snapshot(t, call), todo), t.deliveries)
  {
    var chosen := Snapshot(t, call);
    assert SameAcceptances(chosen, t.deliveries);
    forall k | k in chosen
      ensures LeasedRow(t, call, k.channel, chosen[k]).sentAt == chosen[k].sentAt
    {}
  }

  lemma SameCooling(t: Tables, call: LeaseCall, todo: set<DeliveryKey>, now: Tables, channel: Channel)
    requires call.event in t.events && now.events == t.events
    requires now.deliveries == Visited(t, call, Snapshot(t, call), todo)
    ensures Cooling(now, call, channel) == Cooling(t, call, channel)
  {
    VisitingAccepts(t, call, todo);
    var policy, minutes := t.events[call.event].policy, Cooldown(call, channel);
    if Cooling(now, call, channel) {
      CoolingSame(now.deliveries, t.deliveries, t.events, policy, channel, call.now, minutes);
    }
    if Cooling(t, call, channel) {
      CoolingSame(t.deliveries, now.deliveries, t.events, policy, channel, call.now, minutes);
    }
  }

  /** Recording another transition leaves the entries of the earlier ones alone. */
  lemma EntriesStay(before: map<EventId, Event>, after: map<EventId, Event>, list: seq<Announcement>, policy: PolicyId,
                    start: Time, transitions: seq<Transition>, i: nat, why: Reason, id: EventId)
    requires i < |transitions| && |list| == i
    requires forall j :: 0 <= j < i ==> transitions[j] != transitions[i]
    requires forall j :: 0 <= j < i ==> Entry(before, list[j], policy, start, transitions[j], why)
    requires forall j :: j in before && !HasKey(before[j], policy, start, transitions[i])
               ==> j != id && j in after && after[j] == before[j]
    ensures forall j :: 0 <= j < i ==> Entry(after, list[j], policy, start, transitions[j], why)
  {
    forall j | 0 <= j < i
      ensures Entry(after, list[j], policy, start, transitions[j], why)
    {
      assert Entry(before, list[j], policy, start, transitions[j], why);
      assert !HasKey(before[list[j].event], policy, start, transitions[i]);
    }
  }

  class Repository {
    var policies: map<PolicyId, Policy>
    var events: map<EventId, Event>
    var nextId: EventId
    var states: map<PolicyId, PolicyState>
    var deliveries: map<DeliveryKey, Delivery>
    var clock: Time

    ghost function View(): Tables
      reads this
    {
      Tables(policies, events, nextId, states, deliveries, clock)
    }

    constructor (policies: map<PolicyId, Policy>, now: Time)
      ensures View() == Tables(policies, map[], 0, map[], map[], now)
      ensures Sound(View())
    {
      this.policies, events, nextId, states, deliveries, clock := policies, map[], 0, map[], map[], now;
    }

    /** Inserts the transition's row, or closes the existing one under a hard suppression. */
    method RecordTransition(f: Forecast, transition: Transition, why: Reason) returns (id: EventId)
      requires f.start.Some? && f.end.Some?
      requires KeysUnique(events) && IdsBelowNext(events, nextId)
      modifies this`events, this`nextId
      ensures EventTable(events, nextId) == Record(EventTable(old(events), old(nextId)), f, transition, why)
      ensures id in events && HasKey(events[id], f.policy, f.start.value, transition)
      ensures why.Hard() ==> !events[id].status.Pending?
      ensures forall j :: j in old(events) && !HasKey(old(events)[j], f.policy, f.start.value, transition)
                ==> j != id && j in events && events[j] == old(events)[j]
      ensures KeysUnique(events) && IdsBelowNext(events, nextId)
    {
      hide Record, KeysUnique, IdsBelowNext, Closed;
      if exists j | j in events :: HasKey(events[j], f.policy, f.start.value, transition) {
        id :| id in events && HasKey(events[id], f.policy, f.start.value, transition);
        ExistingRow(EventTable(events, nextId), id, f, transition, why);
        if events[id].status.Pending? && why.Hard() {
          events := events[id := events[id].(status := Suppressed, reason := why)];
        }
      } else {
        id := nextId;
        FreshRow(EventTable(events, nextId), f, transition, why);
        events := events[id := Fresh(f, transition, why)];
        nextId := nextId + 1;
      }
    }

    method RecordTransitions(f: Forecast, transitions: seq<Transition>, ghost active: Option<Transition>, why: Reason)
      returns (list: seq<Announcement>)
      requires f.start.Some? && f.end.Some?
      requires KeysUnique(events) && IdsBelowNext(events, nextId)
      requires forall i, j :: 0 <= i < j < |transitions| ==> transitions[i] != transitions[j]
      requires forall tr :: tr in transitions ==> tr.PeriodReset? || active == Some(tr)
      modifies this`events, this`nextId
      ensures EventTable(events, nextId) == RecordAll(EventTable(old(events), old(nextId)), f, transitions, why)
      ensures KeysUnique(events) && IdsBelowNext(events, nextId)
      ensures ListsTransitions(list, events, f, active, why)
    {
      ghost var table := EventTable(events, nextId);
      list := [];
      for i := 0 to |transitions|
        invariant EventTable(events, nextId) == RecordAll(table, f, transitions[..i], why)
        invariant KeysUnique(events) && IdsBelowNext(events, nextId)
        invariant |list| == i
        invariant forall j :: 0 <= j < i ==> Entry(events, list[j], f.policy, f.start.value, transitions[j], why)
      {
        assert transitions[..i + 1][..i] == transitions[..i];
        ghost var before := events;
        var id := RecordTransition(f, transitions[i], why);
        EntriesStay(before, events, list, f.policy, f.start.value, transitions, i, why, id);
        list := list + [Describe(id, events[id], why)];
      }
      assert transitions[..|transitions|] == transitions;
      TransitionsListed(list, events, transitions, f, active, why);
    }

    /** Lists the pending rows of the period that no transition listed, closing them under
        a hard suppression. */
    method CloseRemaining(policy: PolicyId, start: Time, why: Reason, included: set<EventId>)
      returns (list: seq<Announcement>)
      requires IdsBelowNext(events, nextId)
      modifies this`events
      ensures events == RemainderAll(old(events), nextId, policy, start, why, included)
      ensures list == RemainingList(old(events), nextId, policy, start, why, included)
    {
      ghost var before := events;
      list := [];
      for id := 0 to nextId
        invariant events == RemainderAll(before, id, policy, start, why, included)
        invariant list == RemainingList(before, id, policy, start, why, included)
      {
        RemainderStep(before, id, policy, start, why, included);
        if id in events && id !in included && Remaining(events[id], policy, start) {
          var row := events[id];
          if why.Hard() {
            row := row.(status := Suppressed, reason := why);
            events := events[id := row];
          }
          list := list + [Describe(id, row, why)];
        }
      }
    }

    /** The table-wide updates: supersede, close the remaining rows, drop stale ones. */
    method RetireEvents(f: Forecast, active: Option<Transition>, why: Reason, listed: seq<Announcement>)
      returns (rest: seq<Announcement>)
      requires ListsTransitions(listed, events, f, active, why) && IdsBelowNext(events, nextId)
      modifies this`events
      ensures events == RetireAll(old(events), f.policy, f.start.value, active, why)
      ensures Reflects(listed + rest, events, f.policy, why)
    {
      var start := f.start.value;
      var included := set a | a in listed :: a.event;
      ghost var mid := events;
      events := SupersedeAll(events, f.policy, start, active);
      rest := CloseRemaining(f.policy, start, why, included);
      events := StaleAll(events, f.policy, start);
      RetiringWorks(mid, nextId, f, active, why, listed, rest, included);
    }

    /** Turns a forecast into recorded, deduplicated events. */
    method PrepareTransitions(f: Forecast, requested: Reason) returns (ok: bool, list: seq<Announcement>)
      requires KeysUnique(events) && IdsBelowNext(events, nextId)
      modifies this
      ensures ok <==> Acceptable(old(View()), f)
      ensures View() == Announced(old(View()), f, requested)
      ensures ok ==> Reflects(list, events, f.policy, Suppression(old(policies)[f.policy], requested, f.generatedAt))
      ensures !ok ==> list == []
    {
      ok := f.contractKnown && f.policy in policies && policies[f.policy].source == f.source
            && f.level.Some? && f.start.Some? && f.end.Some? && f.start.value < f.end.value;
      list := [];
      if ok {
        list := Announce(f, requested);
      }
    }

    method Announce(f: Forecast, requested: Reason) returns (list: seq<Announcement>)
      requires KeysUnique(events) && IdsBelowNext(events, nextId) && Acceptable(View(), f)
      modifies this
      ensures View() == Announced(old(View()), f, requested)
      ensures Reflects(list, events, f.policy, Suppression(old(policies)[f.policy], requested, f.generatedAt))
    {
      var policy, start, level := policies[f.policy], f.start.value, f.level.value;
      var previous := if f.policy in states then Some(states[f.policy]) else None;
      var transitions := Transitions(previous, level, start);
      var active := Active(previous, level, start);
      var why := Suppression(policy, requested, f.generatedAt);

      list := RecordTransitions(f, transitions, active, why);
      var rest := RetireEvents(f, active, why, list);
      list := list + rest;
      states := states[f.policy := PolicyState(start, f.end.value, level)];
      if SnoozeExpired(policy, f.generatedAt) {
        policies := policies[f.policy := policy.(snoozedUntil := None)];
      }
      deliveries := Muffled(deliveries, events);
    }

    /** Inserts the waiting rows of the enabled channels, ignoring duplicates and strangers. */
    method ChooseChannels(call: LeaseCall)
      requires call.event in events
      modifies this`deliveries
      ensures deliveries == Snapshot(old(View()), call)
    {
      ghost var before := deliveries;
      if !EventHasRows(deliveries, call.event) && !StaleEvent(events[call.event], call.now) {
        assert before + WaitingRows(call.event, []) == before;
        for i := 0 to |call.enabled|
          invariant deliveries == before + WaitingRows(call.event, call.enabled[..i])
        {
          var channel := call.enabled[i];
          var key := DeliveryKey(call.event, channel);
          assert call.enabled[..i + 1] == call.enabled[..i] + [channel];
          ChooseStep(before, call.event, call.enabled[..i], channel);
          if Known(channel) && key !in deliveries {
            deliveries := deliveries[key := FRESH];
          }
        }
        assert call.enabled[..|call.enabled|] == call.enabled;
      }
    }

    /** Visits one row: mutes, skips, gives up or leases it. */
    method LeaseRow(key: DeliveryKey, call: LeaseCall) returns (leased: bool)
      requires key in deliveries && key.event == call.event && call.event in events
      modifies this`deliveries
      ensures deliveries == old(deliveries)[key := LeasedRow(old(View()), call, key.channel, old(deliveries)[key])]
      ensures leased <==> IsLeased(old(View()), call, key, old(deliveries)[key])
    {
      var d, e := deliveries[key], events[call.event];
      var minutes := Cooldown(call, key.channel);
      leased := false;
      if d.Open() {
        if StaleEvent(e, call.now) || key.channel !in call.enabled {
          d := d.(status := Muted, reason := if StaleEvent(e, call.now) then Stale else ChannelDisabled);
        } else if !(d.nextAt.Some? && d.nextAt.value > call.now) {
          if !(d.attempts == 0 && CoolingDown(deliveries, events, e.policy, key.channel, call.now, minutes)) {
            if d.attempts >= 3 {
              d := d.(status := Dropped, reason := Exhausted);
            } else {
              leased := true;
              d := d.(status := InFlight, attempts := d.attempts + 1, leases := d.leases + [call.now],
                      nextAt := Some(call.now + 1000 * (Max(60, minutes * 60) + 15)));
            }
          }
        }
      }
      deliveries := deliveries[key := d];
    }

    /** Visits every row of the event, in no particular order. */
    method LeaseRows(call: LeaseCall, ghost t: Tables) returns (due: seq<DeliveryKey>)
      requires call.event in events && events == t.events && deliveries == Snapshot(t, call)
      modifies this`deliveries
      ensures deliveries == LeasedRows(t, call, Snapshot(t, call))
      ensures forall k :: k in due <==>
                k in Snapshot(t, call) && k.event == call.event && IsLeased(t, call, k, Snapshot(t, call)[k])
    {
      due := [];
      ghost var chosen := deliveries;
      var todo := set k | k in deliveries && k.event == call.event;
      assert deliveries == Visited(t, call, chosen, todo);
      while todo != {}
        invariant todo <= chosen.Keys && forall k :: k in todo ==> k.event == call.event
        invariant deliveries == Visited(t, call, chosen, todo)
        invariant forall k :: k in due <==>
                    k in chosen && k.event == call.event && k !in todo && IsLeased(t, call, k, chosen[k])
        decreases |todo|
      {
        var key :| key in todo;
        VisitOne(t, call, chosen, todo, key);
        ghost var before := View();
        SameCooling(t, call, todo, before, key.channel);
        var leased := LeaseRow(key, call);
        todo := todo - {key};
        if leased {
          due := due + [key];
        }
      }
      assert deliveries == LeasedRows(t, call, chosen);
    }

    /** Leases every due row of an event and settles the event once no row is open. */
    method PrepareChannelDeliveries(call: LeaseCall) returns (due: seq<DeliveryKey>)
      modifies this
      ensures View() == Prepared(old(View()), call)
      ensures call.event !in old(events) ==> due == []
      ensures call.event in old(events) ==>
                forall k :: k in due <==>
                  && k in Snapshot(old(View()), call) && k.event == call.event
                  && IsLeased(old(View()), call, k, Snapshot(old(View()), call)[k])
    {
      due := [];
      if call.event in events {
        ghost var t := View();
        clock := call.now;
        ChooseChannels(call);
        due := LeaseRows(call, t);
        SettleEvent(call.event, Aggregate(deliveries, call.event));
      }
    }

    method SettleEvent(event: EventId, status: EventStatus)
      modifies this`events
      ensures View() == Settled(old(View()), event, status)
    {
      if event in events && events[event].status.Pending? && !EventHasOpenRows(deliveries, event) {
        events := events[event := events[event].(status := status, settled := true)];
      }
    }

    /** Records the outcome of a leased delivery. */
    method CompleteChannelDelivery(call: ReportCall) returns (ok: bool)
      modifies this
      ensures View() == Completed(old(View()), call)
      ensures ok <==> call.event in old(events) && DeliveryKey(call.event, call.channel) in old(deliveries)
                      && old(deliveries)[DeliveryKey(call.event, call.channel)].status.InFlight?
    {
      var key := DeliveryKey(call.event, call.channel);
      ok := call.event in events && key in deliveries && deliveries[key].status.InFlight?;
      if ok {
        clock := call.now;
        deliveries := deliveries[key := Reported(deliveries[key], call)];
        SettleEvent(call.event, if EventHas(deliveries, call.event, Dropped) then Failed else Delivered);
      }
    }
  }
}
