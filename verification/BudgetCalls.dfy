/** What single calls do to the budget tables, said on the rows before and after. */
module BudgetCalls {
  import opened Options
  import opened BudgetTables
  import opened BudgetRuns

  // ---------- Announcements ----------

  predicate IsRisk(level: Level) {
    level == Warning || level == Critical || level == Exceeded
  }

  /** A forecast that is taken: of a known contract and policy, from its source, with a period. */
  predicate Taken(t: Tables, f: Forecast) {
    && f.contractKnown && f.policy in t.policies && t.policies[f.policy].source == f.source
    && f.level.Some? && f.start.Some? && f.end.Some? && f.start.value < f.end.value
  }

  /** The policy announces nothing at this time. */
  predicate Silenced(policy: Policy, requested: Reason, at: Time) {
    || (policy.snoozedUntil.Some? && policy.snoozedUntil.value > at)
    || !policy.enabled || !policy.notify
    || !(requested == NoReason || requested == Dnd)
  }

  /** Why: snoozing comes before disabling, and that before the caller's reason. */
  function Cause(policy: Policy, requested: Reason, at: Time): Reason {
    if policy.snoozedUntil.Some? && policy.snoozedUntil.value > at then Snoozed
    else if !(policy.enabled && policy.notify) then Disabled
    else requested
  }

  /** The policy's stored state is about another period. */
  predicate NewPeriod(t: Tables, f: Forecast)
    requires Taken(t, f)
  {
    f.policy in t.states && t.states[f.policy].start != f.start.value
  }

  /** A risk is announced when its level is new in the period, a recovery when a risk ended in it. */
  predicate Announces(t: Tables, f: Forecast, transition: Transition)
    requires Taken(t, f)
  {
    var level := f.level.value;
    match transition
    case PeriodReset => NewPeriod(t, f)
    case Entered(entered) =>
      entered == level && IsRisk(level)
      && (f.policy !in t.states || t.states[f.policy].start != f.start.value || t.states[f.policy].level != level)
    case Recovered =>
      level == Safe && f.policy in t.states && t.states[f.policy].start == f.start.value && IsRisk(t.states[f.policy].level)
  }

  lemma TransitionsAre(t: Tables, f: Forecast)
    requires Taken(t, f)
    ensures
      var trs := Transitions(Previous(t, f.policy), f.level.value, f.start.value);
      && (forall tr :: tr in trs <==> Announces(t, f, tr))
      && (forall tr :: Active(Previous(t, f.policy), f.level.value, f.start.value) == Some(tr) <==> Announces(t, f, tr) && !tr.PeriodReset?)
      && (forall tr :: tr in trs <==> (tr.PeriodReset? && PeriodReset in trs)
                                      || Active(Previous(t, f.policy), f.level.value, f.start.value) == Some(tr))
  {
    var active := Active(Previous(t, f.policy), f.level.value, f.start.value);
    var trs := Transitions(Previous(t, f.policy), f.level.value, f.start.value);
    forall tr
      ensures tr in trs <==> Announces(t, f, tr)
      ensures active == Some(tr) <==> Announces(t, f, tr) && !tr.PeriodReset?
    {
      assert tr in trs <==> (tr == PeriodReset && NewPeriod(t, f)) || active == Some(tr);
    }
  }

  /** Exactly the forecasts that can be taken change anything; they become the policy's state,
      and end a snooze that is over. */
  lemma StateIsForecast(t: Tables, f: Forecast, requested: Reason)
    ensures !Taken(t, f) ==> Announced(t, f, requested) == t
    ensures Taken(t, f) ==>
              var later := Announced(t, f, requested);
              && later.states == t.states[f.policy := PolicyState(f.start.value, f.end.value, f.level.value)]
              && f.policy in later.policies && later.policies - {f.policy} == t.policies - {f.policy}
              && (var snooze := t.policies[f.policy].snoozedUntil;
                  later.policies[f.policy]
                  == t.policies[f.policy].(snoozedUntil := if snooze.Some? && snooze.value <= f.generatedAt then None else snooze))
              && later.clock == t.clock
  {
    hide RecordAll, RetireAll, Muffled, Transitions, Active;
  }

  /** What becomes of an event that was there: pending ones of the policy are closed as stale
      outside the period, as superseded by another announcement of it, and under a silence. */
  lemma EventAfterAnnouncement(t: Tables, f: Forecast, requested: Reason, id: EventId)
    requires EventsSound(t) && Taken(t, f) && id in t.events
    ensures id in Announced(t, f, requested).events
    ensures
      var e, later, policy := t.events[id], Announced(t, f, requested).events[id], t.policies[f.policy];
      later ==
        if e.policy != f.policy || e.status != Pending then e
        else if e.start != f.start.value then e.(status := Suppressed, reason := Stale)
        else if !e.transition.PeriodReset? && exists tr :: tr != e.transition && !tr.PeriodReset? && Announces(t, f, tr)
        then e.(status := Suppressed, reason := Superseded)
        else if Silenced(policy, requested, f.generatedAt)
        then e.(status := Suppressed, reason := Cause(policy, requested, f.generatedAt))
        else e
  {
    var why := Suppression(t.policies[f.policy], requested, f.generatedAt);
    var trs, active := Transitions(Previous(t, f.policy), f.level.value, f.start.value),
                       Active(Previous(t, f.policy), f.level.value, f.start.value);
    TransitionsAre(t, f);
    SilencedIsHard(t.policies[f.policy], requested, f.generatedAt);
    RecordMany(EventTable(t.events, t.nextId), f, trs, why);
    RecordedRow(EventTable(t.events, t.nextId), f, trs, why, id);
    var mid := RecordedEvents(t, f, requested);
    assert Announced(t, f, requested).events[id] == Retired(mid.events[id], f.policy, f.start.value, active, why);
    RetiredCases(t.events[id], mid.events[id], f.policy, f.start.value, active, why);
    ActiveIsOther(t, f, t.events[id].transition, active);
    hide Announced, RecordAll, Transitions, Active, EventsSound, SameKeys, KeysUnique, IdsBelowNext, Added, Recorded, Announces, Suppression,
      Silenced, Cause, Retired, Closed;
  }

  lemma RetiredCases(e: Event, mid: Event, policy: PolicyId, start: Time, active: Option<Transition>, why: Reason)
    requires mid == e || (mid == Closed(e, why) && e.policy == policy && e.start == start)
    requires mid == e || active.None? || e.transition.PeriodReset? || e.transition == active.value
    ensures Retired(mid, policy, start, active, why) ==
              if e.policy != policy || e.status != Pending then e
              else if e.start != start then e.(status := Suppressed, reason := Stale)
              else if !e.transition.PeriodReset? && active.Some? && active.value != e.transition
              then e.(status := Suppressed, reason := Superseded)
              else if why.Hard() then e.(status := Suppressed, reason := why)
              else e
  {}

  lemma ActiveIsOther(t: Tables, f: Forecast, transition: Transition, active: Option<Transition>)
    requires Taken(t, f) && forall tr :: active == Some(tr) <==> Announces(t, f, tr) && !tr.PeriodReset?
    ensures (active.Some? && active.value != transition)
            <==> exists tr :: tr != transition && !tr.PeriodReset? && Announces(t, f, tr)
  {
    hide Announces;
    if active.Some? && active.value != transition {
      assert Announces(t, f, active.value) && !active.value.PeriodReset?;
    }
  }

  lemma SilencedIsHard(policy: Policy, requested: Reason, at: Time)
    ensures Suppression(policy, requested, at) == Cause(policy, requested, at)
    ensures Suppression(policy, requested, at).Hard() <==> Silenced(policy, requested, at)
  {}

  /** Recording leaves a row alone or closes it for the given reason, if it is about one of
      the transitions. */
  lemma {:induction false} RecordedRow(table: EventTable, f: Forecast, trs: seq<Transition>, why: Reason, id: EventId)
    requires f.start.Some? && f.end.Some? && id in table.events && IdsBelowNext(table.events, table.nextId)
    ensures id in RecordAll(table, f, trs, why).events
    ensures IdsBelowNext(RecordAll(table, f, trs, why).events, RecordAll(table, f, trs, why).nextId)
    ensures
      var e, later := table.events[id], RecordAll(table, f, trs, why).events[id];
      later == e || (later == Closed(e, why) && e.policy == f.policy && e.start == f.start.value && e.transition in trs)
  {
    if trs != [] {
      var init := trs[..|trs| - 1];
      RecordedRow(table, f, init, why, id);
      assert RecordAll(table, f, init, why).nextId !in RecordAll(table, f, init, why).events;
    }
  }

  /** A row that recording adds is the fresh one of a transition that had none. */
  lemma {:induction false} NewRowIsFresh(table: EventTable, f: Forecast, trs: seq<Transition>, why: Reason, id: EventId)
    requires f.start.Some? && f.end.Some? && KeysUnique(table.events) && IdsBelowNext(table.events, table.nextId)
    requires id in RecordAll(table, f, trs, why).events && id !in table.events
    ensures
      var row := RecordAll(table, f, trs, why).events[id];
      && row.transition in trs && !Recorded(table.events, f.policy, f.start.value, row.transition)
      && row == Fresh(f, row.transition, why)
  {
    var init, last := trs[..|trs| - 1], trs[|trs| - 1];
    var before := RecordAll(table, f, init, why);
    RecordMany(table, f, init, why);
    RecordStep(before, f, last, why, id);
    hide KeysUnique, IdsBelowNext, Added, SameKeys, Record, Recorded;
    if id in before.events {
      NewRowIsFresh(table, f, init, why, id);
    } else if Recorded(table.events, f.policy, f.start.value, last) {
      RecordedStays(table.events, before.events, f.policy, f.start.value, last);
    }
  }

  lemma RecordStep(table: EventTable, f: Forecast, tr: Transition, why: Reason, id: EventId)
    requires f.start.Some? && f.end.Some? && IdsBelowNext(table.events, table.nextId)
    requires id in Record(table, f, tr, why).events
    ensures id !in table.events ==>
              !Recorded(table.events, f.policy, f.start.value, tr) && Record(table, f, tr, why).events[id] == Fresh(f, tr, why)
    ensures id in table.events && table.events[id] == Fresh(f, table.events[id].transition, why) ==>
              Record(table, f, tr, why).events[id] == table.events[id]
  {}

  lemma FreshIsNotRetired(f: Forecast, tr: Transition, active: Option<Transition>, why: Reason)
    requires f.start.Some? && f.end.Some? && (tr.PeriodReset? || active == Some(tr))
    ensures Retired(Fresh(f, tr, why), f.policy, f.start.value, active, why) == Fresh(f, tr, why)
  {}

  /** Every announced transition of the period that has no row yet gets one, pending unless the
      policy is silenced, and nothing else gets a row. */
  lemma AnnouncementIsRecorded(t: Tables, f: Forecast, requested: Reason)
    requires EventsSound(t) && Taken(t, f)
    ensures forall tr :: Announces(t, f, tr) ==> Recorded(Announced(t, f, requested).events, f.policy, f.start.value, tr)
    ensures forall id :: id in Announced(t, f, requested).events && id !in t.events ==>
              var e, policy := Announced(t, f, requested).events[id], t.policies[f.policy];
              && Announces(t, f, e.transition) && !Recorded(t.events, f.policy, f.start.value, e.transition)
              && e == Event(f.policy, f.start.value, f.end.value, e.transition,
                            if Silenced(policy, requested, f.generatedAt) then Suppressed else Pending,
                            Cause(policy, requested, f.generatedAt), false)
  {
    var why := Suppression(t.policies[f.policy], requested, f.generatedAt);
    var trs, active := Transitions(Previous(t, f.policy), f.level.value, f.start.value),
                       Active(Previous(t, f.policy), f.level.value, f.start.value);
    var table, mid := EventTable(t.events, t.nextId), RecordedEvents(t, f, requested);
    var later := Announced(t, f, requested);
    TransitionsAre(t, f);
    SilencedIsHard(t.policies[f.policy], requested, f.generatedAt);
    RecordMany(table, f, trs, why);
    RetireKeeps(mid.events, f.policy, f.start.value, active, why);
    assert later.events == RetireAll(mid.events, f.policy, f.start.value, active, why);
    hide Announced, RecordAll, Transitions, Active, EventsSound, KeysUnique, Recorded, Announces, Suppression, Silenced, Cause, Retired;
    forall tr | tr in trs
      ensures Recorded(later.events, f.policy, f.start.value, tr)
    {
      RecordedStays(mid.events, later.events, f.policy, f.start.value, tr);
    }
    forall id | id in later.events && id !in t.events
      ensures later.events[id].transition in trs && !Recorded(t.events, f.policy, f.start.value, later.events[id].transition)
      ensures later.events[id] == Fresh(f, later.events[id].transition, why)
    {
      NewRowIsFresh(table, f, trs, why, id);
      FreshIsNotRetired(f, mid.events[id].transition, active, why);
    }
  }

  /** Open deliveries follow their event into suppression, with its reason; all others stay. */
  lemma DeliveriesFollowEvents(t: Tables, f: Forecast, requested: Reason, k: DeliveryKey)
    requires Taken(t, f) && k in t.deliveries
    ensures
      var later, d := Announced(t, f, requested), t.deliveries[k];
      && later.deliveries.Keys == t.deliveries.Keys
      && later.deliveries[k] ==
           if (d.status == Waiting || d.status == InFlight) && k.event in later.events && later.events[k.event].status == Suppressed
           then d.(status := Muted, reason := later.events[k.event].reason) else d
  {
    hide RecordAll, RetireAll, Transitions, Active;
  }

  // ---------- Preparing deliveries ----------

  /** The event is pending and its period goes on. */
  predicate IsCurrent(t: Tables, event: EventId, now: Time) {
    event in t.events && t.events[event].status == Pending && t.events[event].end > now
  }

  ghost predicate HasRows(t: Tables, event: EventId) {
    exists k :: k in t.deliveries && k.event == event
  }

  /** The first preparation of a current event gives it one row for each known enabled channel;
      no other preparation adds a row, and none removes one. */
  lemma ChannelsAreChosenOnce(t: Tables, call: LeaseCall, k: DeliveryKey)
    ensures k in Prepared(t, call).deliveries <==>
              || k in t.deliveries
              || (&& k.event == call.event && IsCurrent(t, call.event, call.now) && !HasRows(t, call.event)
                  && k.channel in call.enabled && (k.channel == Kde || k.channel == Slack || k.channel == Discord))
  {
    if call.event in t.events {
      assert EventHasRows(t.deliveries, call.event) <==> HasRows(t, call.event);
    }
    hide LeasedRow, Aggregate, EventHasOpenRows;
  }

  /** An acceptance of the policy's deliveries on this channel within the last minutes. */
  ghost predicate RecentlyAccepted(t: Tables, policy: PolicyId, channel: Channel, now: Time, minutes: int) {
    exists k :: && k in t.deliveries && k.channel == channel && t.deliveries[k].sentAt.Some?
                && k.event in t.events && t.events[k.event].policy == policy
                && SecondsTo(t.deliveries[k].sentAt.value, now) < (if minutes < 0 then 0 else minutes) * 60
  }

  /** Whole seconds are cut toward zero. */
  lemma SecondsAreWhole(a: Time, b: Time)
    ensures a <= b ==> 1000 * SecondsTo(a, b) <= b - a < 1000 * SecondsTo(a, b) + 1000
    ensures SecondsTo(b, a) == -SecondsTo(a, b)
  {}

  /** The desktop has its own cooldown, if one is set. */
  function MinutesFor(call: LeaseCall, channel: Channel): int {
    if channel == Kde && call.desktopCooldown >= 0 then call.desktopCooldown else call.cooldown
  }

  /** The row as the preparation found or chose it. */
  function RowBefore(t: Tables, k: DeliveryKey): Delivery {
    if k in t.deliveries then t.deliveries[k] else Delivery(Waiting, 0, None, None, NoReason, [])
  }

  /** What a preparation does to a row of its event: closed rows stay; open ones are muted when
      the event is over or the channel is off, wait for their time and, before the first
      attempt, for the cooldown, are given up after three attempts, and are sent otherwise. */
  lemma PreparedRow(t: Tables, call: LeaseCall, k: DeliveryKey)
    requires call.event in t.events && k in Prepared(t, call).deliveries && k.event == call.event
    ensures
      var d, later := RowBefore(t, k), Prepared(t, call).deliveries[k];
      var minutes := MinutesFor(call, k.channel);
      later ==
        if d.status == Sent || d.status == Dropped || d.status == Muted then d
        else if !IsCurrent(t, call.event, call.now) then d.(status := Muted, reason := Stale)
        else if k.channel !in call.enabled then d.(status := Muted, reason := ChannelDisabled)
        else if d.nextAt.Some? && d.nextAt.value > call.now then d
        else if d.attempts == 0 && RecentlyAccepted(t, t.events[call.event].policy, k.channel, call.now, minutes) then d
        else if d.attempts >= 3 then d.(status := Dropped, reason := Exhausted)
        else d.(status := InFlight, attempts := d.attempts + 1, leases := d.leases + [call.now],
                nextAt := Some(call.now + 1000 * ((if minutes * 60 > 60 then minutes * 60 else 60) + 15)))
  {
    hide Prepared, Leased, CoolingDown, Cooling, RecentlyAccepted, MinutesFor, RowBefore;
    PreparedIsLeased(t, call, k);
    CooldownIsRecent(t, call, k.channel);
    LeasedCases(t.events[call.event], call, k.channel, RowBefore(t, k), Cooling(t, call, k.channel));
  }

  lemma LeasedCases(e: Event, call: LeaseCall, channel: Channel, d: Delivery, cooling: bool)
    ensures
      var minutes := MinutesFor(call, channel);
      Leased(e, call, channel, d, cooling) ==
        if d.status == Sent || d.status == Dropped || d.status == Muted then d
        else if !(e.status == Pending && e.end > call.now) then d.(status := Muted, reason := Stale)
        else if channel !in call.enabled then d.(status := Muted, reason := ChannelDisabled)
        else if d.nextAt.Some? && d.nextAt.value > call.now then d
        else if d.attempts == 0 && cooling then d
        else if d.attempts >= 3 then d.(status := Dropped, reason := Exhausted)
        else d.(status := InFlight, attempts := d.attempts + 1, leases := d.leases + [call.now],
                nextAt := Some(call.now + 1000 * ((if minutes * 60 > 60 then minutes * 60 else 60) + 15)))
  {}

  lemma PreparedIsLeased(t: Tables, call: LeaseCall, k: DeliveryKey)
    requires call.event in t.events && k in Prepared(t, call).deliveries && k.event == call.event
    ensures Prepared(t, call).deliveries[k] == LeasedRow(t, call, k.channel, RowBefore(t, k))
  {
    hide LeasedRow, Aggregate, EventHasOpenRows, StaleEvent;
  }

  lemma CooldownIsRecent(t: Tables, call: LeaseCall, channel: Channel)
    requires call.event in t.events
    ensures Cooling(t, call, channel)
            <==> RecentlyAccepted(t, t.events[call.event].policy, channel, call.now, MinutesFor(call, channel))
  {
    hide SecondsTo;
  }

  /** Rows of other events are left alone. */
  lemma OtherRowsStay(t: Tables, call: LeaseCall, k: DeliveryKey)
    requires k in t.deliveries && k.event != call.event
    ensures k in Prepared(t, call).deliveries && Prepared(t, call).deliveries[k] == t.deliveries[k]
  {
    hide LeasedRow, Aggregate, EventHasOpenRows;
  }

  /** A row is sent for the first time only when the channel has been quiet for the policy:
      its last acceptance lies at least the cooldown back. */
  lemma CooldownHolds(t: Tables, call: LeaseCall, k: DeliveryKey, other: DeliveryKey)
    requires call.event in t.events && k in Prepared(t, call).deliveries && k.event == call.event
    requires RowBefore(t, k).attempts == 0 && Prepared(t, call).deliveries[k].attempts == 1
    requires other in t.deliveries && other.channel == k.channel && t.deliveries[other].sentAt.Some?
    requires other.event in t.events && t.events[other.event].policy == t.events[call.event].policy
    requires t.deliveries[other].sentAt.value <= call.now
    ensures call.now - t.deliveries[other].sentAt.value >= 60_000 * MinutesFor(call, k.channel)
  {
    PreparedRow(t, call, k);
    SecondsAreWhole(t.deliveries[other].sentAt.value, call.now);
    hide Prepared, SecondsTo;
  }

  // ---------- Completing and settling ----------

  ghost predicate AwaitsRows(t: Tables, event: EventId) {
    exists k :: k in t.deliveries && k.event == event && (t.deliveries[k].status == Waiting || t.deliveries[k].status == InFlight)
  }

  /** A report closes an in-flight row as sent or given up, or lets it wait for another attempt:
      a minute at least, the cooldown, and as long as the receiver asked for. Any other report
      changes nothing. */
  lemma ReportedRow(t: Tables, call: ReportCall)
    ensures
      var key := DeliveryKey(call.event, call.channel);
      if !(call.event in t.events && key in t.deliveries && t.deliveries[key].status == InFlight) then Completed(t, call) == t
      else
        var d, later := t.deliveries[key], Completed(t, call).deliveries;
        && key in later && later - {key} == t.deliveries - {key}
        && later[key].status == (if call.accepted then Sent else if call.retryable && d.attempts < 3 then Waiting else Dropped)
        && later[key].attempts == d.attempts && later[key].leases == d.leases
        && later[key].reason == (if call.accepted then NoReason else call.reason)
        && later[key].sentAt == (if call.accepted then Some(call.now) else None)
        && later[key].nextAt.Some?
        && var wait := later[key].nextAt.value - call.now;
           && wait >= 60_000 && wait >= 60_000 * call.cooldown && wait >= 1000 * call.retryAfter
           && (wait == 60_000 || wait == 60_000 * call.cooldown || wait == 1000 * call.retryAfter)
  {
    hide EventHas, EventHasOpenRows;
  }

  /** After either call the event has the status its rows call for as soon as none is open, and
      is unchanged before. */
  lemma SettledByRows(t: Tables, call: Call, event: EventId)
    requires Sound(t) && Timely(t, call) && event in t.events && t.events[event].status == Pending
    requires (call.Lease? && call.lease.event == event)
             || (call.Report? && call.report.event == event && Apply(t, call) != t)
    ensures
      var later := Apply(t, call);
      && event in later.events
      && (AwaitsRows(later, event) ==> later.events[event] == t.events[event])
      && (!AwaitsRows(later, event) ==>
            && later.events[event] == t.events[event].(status := later.events[event].status, settled := true)
            && StatusOfRows(later.deliveries, event, later.events[event].status))
  {
    ApplyKeepsSound(t, call);
    SettlesWhenClosed(t, call, event);
    hide Apply, EventsSound, StatusOfRows;
  }

  lemma SettlesWhenClosed(t: Tables, call: Call, event: EventId)
    requires event in t.events && t.events[event].status == Pending
    requires (call.Lease? && call.lease.event == event)
             || (call.Report? && call.report.event == event && Apply(t, call) != t)
    ensures
      var later := Apply(t, call);
      && event in later.events
      && later.events[event]
         == if AwaitsRows(later, event) then t.events[event]
            else t.events[event].(status := later.events[event].status, settled := true)
  {
    var later := Apply(t, call);
    assert EventHasOpenRows(later.deliveries, event) <==> AwaitsRows(later, event);
    hide EventHas, Aggregate, AwaitsRows, LeasedRow, Reported, Snapshot;
  }

  /** In every state that calls reach, an event that the deliveries settled failed if and only
      if one of its deliveries was given up, was delivered if and only if none was and one was
      accepted, and was suppressed if and only if neither happened. */
  lemma SettledEventsFollowRows(t: Tables, calls: seq<Call>, event: EventId)
    requires Untouched(t) && TimelyRun(t, calls)
    requires event in Run(t, calls).events && Run(t, calls).events[event].settled
    ensures
      var later := Run(t, calls);
      var givenUp := exists k :: k in later.deliveries && k.event == event && later.deliveries[k].status == Dropped;
      var accepted := exists k :: k in later.deliveries && k.event == event && later.deliveries[k].status == Sent;
      && (later.events[event].status == Failed <==> givenUp)
      && (later.events[event].status == Delivered <==> !givenUp && accepted)
      && (later.events[event].status == Suppressed <==> !givenUp && !accepted)
  {
    ReachableIsSound(t, calls);
    hide Run, TimelyRun, EventsSound;
    assert StatusOfRows(Run(t, calls).deliveries, event, Run(t, calls).events[event].status);
  }
}
