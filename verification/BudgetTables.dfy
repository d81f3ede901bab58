/** The rows behind budget notifications and what each repository call does to them.
    `settled` and `leases` are history columns: they record what happened to a row and
    influence nothing. */
module BudgetTables {
  import opened Bounds
  import opened Options

  type Time = int  // milliseconds

  type PolicyId = string

  type EventId = nat

  datatype Level = Unavailable | Safe | Warning | Critical | Exceeded {
    predicate Risky() {
      Warning? || Critical? || Exceeded?
    }
  }

  datatype Transition = Entered(level: Level) | Recovered | PeriodReset

  datatype Reason =
    | NoReason | Dnd | Disabled | Snoozed | Superseded | Stale
    | ChannelDisabled | Exhausted | Other(text: string)
  {
    /** Every reason except do-not-disturb closes the event. */
    predicate Hard() {
      !NoReason? && !Dnd?
    }
  }

  datatype EventStatus = Pending | Delivered | Suppressed | Failed

  datatype Event = Event(policy: PolicyId, start: Time, end: Time, transition: Transition,
                         status: EventStatus, reason: Reason, settled: bool)

  datatype Channel = Kde | Slack | Discord | Unknown(name: string)

  datatype DeliveryStatus = Waiting | InFlight | Sent | Dropped | Muted

  datatype Delivery = Delivery(status: DeliveryStatus, attempts: int, nextAt: Option<Time>,
                               sentAt: Option<Time>, reason: Reason, leases: seq<Time>)
  {
    predicate Open() {
      status.Waiting? || status.InFlight?
    }
  }

  datatype DeliveryKey = DeliveryKey(event: EventId, channel: Channel)

  datatype Policy = Policy(source: string, enabled: bool, notify: bool, snoozedUntil: Option<Time>)

  datatype PolicyState = PolicyState(start: Time, end: Time, level: Level)

  /** The tables. `clock` is the system time of the latest delivery call. */
  datatype Tables = Tables(policies: map<PolicyId, Policy>, events: map<EventId, Event>, nextId: EventId,
                           states: map<PolicyId, PolicyState>, deliveries: map<DeliveryKey, Delivery>,
                           clock: Time)

  /** A forecast as handed over; unknown words and invalid dates are `None`. */
  datatype Forecast = Forecast(contractKnown: bool, policy: PolicyId, source: string, level: Option<Level>,
                               start: Option<Time>, end: Option<Time>, generatedAt: Time)

  // ---------- Transitions ----------

  predicate Acceptable(t: Tables, f: Forecast) {
    && f.contractKnown
    && f.policy in t.policies
    && t.policies[f.policy].source == f.source
    && f.level.Some? && f.start.Some? && f.end.Some? && f.start.value < f.end.value
  }

  function Previous(t: Tables, policy: PolicyId): Option<PolicyState> {
    if policy in t.states then Some(t.states[policy]) else None
  }

  predicate PeriodChanged(previous: Option<PolicyState>, start: Time) {
    previous.Some? && previous.value.start != start
  }

  /** The condition worth announcing, if any: a risk entered, or a recovery. */
  function Active(previous: Option<PolicyState>, level: Level, start: Time): Option<Transition> {
    var changed := PeriodChanged(previous, start);
    if level.Risky() && (previous.None? || changed || previous.value.level != level) then Some(Entered(level))
    else if !changed && level.Safe? && previous.Some? && previous.value.level.Risky() then Some(Recovered)
    else None
  }

  function Transitions(previous: Option<PolicyState>, level: Level, start: Time): seq<Transition> {
    (if PeriodChanged(previous, start) then [PeriodReset] else [])
    + match Active(previous, level, start) { case None => [] case Some(a) => [a] }
  }

  function Suppression(policy: Policy, requested: Reason, now: Time): Reason {
    if policy.snoozedUntil.Some? && policy.snoozedUntil.value > now then Snoozed
    else if !policy.enabled || !policy.notify then Disabled
    else requested
  }

  /** The transition rule of the forecast contract, which knows no periods. */
  function TransitionFor(previous: Level, current: Level): Option<Transition> {
    if current.Warning? && !previous.Warning? then Some(Entered(Warning))
    else if current.Critical? && !previous.Critical? then Some(Entered(Critical))
    else if current.Exceeded? && !previous.Exceeded? then Some(Entered(Exceeded))
    else if previous.Risky() && current.Safe? then Some(Recovered)
    else None
  }

  /** The repository follows the contract within a period, and treats the first forecast
      and the first one of a new period as following an unavailable one. */
  lemma ActiveFollowsContract(previous: Option<PolicyState>, level: Level, start: Time)
    ensures Active(previous, level, start)
            == TransitionFor(if previous.None? || PeriodChanged(previous, start) then Unavailable else previous.value.level, level)
  {}

  predicate HasKey(e: Event, policy: PolicyId, start: Time, transition: Transition) {
    e.policy == policy && e.start == start && e.transition == transition
  }

  ghost predicate Recorded(events: map<EventId, Event>, policy: PolicyId, start: Time, transition: Transition) {
    exists id :: id in events && HasKey(events[id], policy, start, transition)
  }

  /** The event row that a transition leaves behind: closed if it was open under a hard
      suppression, inserted if it was missing, untouched otherwise. */
  function Closed(e: Event, why: Reason): Event {
    if e.status.Pending? && why.Hard() then e.(status := Suppressed, reason := why) else e
  }

  function Fresh(f: Forecast, transition: Transition, why: Reason): Event
    requires f.start.Some? && f.end.Some?
  {
    Event(f.policy, f.start.value, f.end.value, transition, if why.Hard() then Suppressed else Pending, why, false)
  }

  datatype EventTable = EventTable(events: map<EventId, Event>, nextId: EventId)

  ghost function Record(table: EventTable, f: Forecast, transition: Transition, why: Reason): EventTable
    requires f.start.Some? && f.end.Some?
  {
    var EventTable(events, nextId) := table;
    if Recorded(events, f.policy, f.start.value, transition) then
      table.(events := map id | id in events ::
        if HasKey(events[id], f.policy, f.start.value, transition) then Closed(events[id], why) else events[id])
    else EventTable(events[nextId := Fresh(f, transition, why)], nextId + 1)
  }

  ghost function RecordAll(table: EventTable, f: Forecast, transitions: seq<Transition>, why: Reason): EventTable
    requires f.start.Some? && f.end.Some?
  {
    if transitions == [] then table
    else
      var last := |transitions| - 1;
      Record(RecordAll(table, f, transitions[..last], why), f, transitions[last], why)
  }

  /** What becomes of a row of the same policy once its transitions are recorded. */
  function Retired(e: Event, policy: PolicyId, start: Time, active: Option<Transition>, why: Reason): Event {
    if e.policy != policy || !e.status.Pending? then e
    else if e.start != start then e.(status := Suppressed, reason := Stale)
    else if active.Some? && e.transition != active.value && !e.transition.PeriodReset? then
      e.(status := Suppressed, reason := Superseded)
    else Closed(e, why)
  }

  function RetireAll(events: map<EventId, Event>, policy: PolicyId, start: Time, active: Option<Transition>,
                     why: Reason): map<EventId, Event>
  {
    map id | id in events :: Retired(events[id], policy, start, active, why)
  }

  /** Deliveries follow their event into suppression. */
  function Muffled(deliveries: map<DeliveryKey, Delivery>, events: map<EventId, Event>): map<DeliveryKey, Delivery> {
    map k | k in deliveries ::
      if deliveries[k].Open() && k.event in events && events[k.event].status.Suppressed?
      then deliveries[k].(status := Muted, reason := events[k.event].reason)
      else deliveries[k]
  }

  predicate SnoozeExpired(policy: Policy, now: Time) {
    policy.snoozedUntil.Some? && policy.snoozedUntil.value <= now
  }

  /** One committed announcement of a forecast; an unacceptable forecast changes nothing. */
  ghost function Announced(t: Tables, f: Forecast, requested: Reason): Tables {
    if !Acceptable(t, f) then t
    else
      var policy, start, level := t.policies[f.policy], f.start.value, f.level.value;
      var previous := Previous(t, f.policy);
      var why := Suppression(policy, requested, f.generatedAt);
      var table := RecordAll(EventTable(t.events, t.nextId), f, Transitions(previous, level, start), why);
      var events := RetireAll(table.events, f.policy, start, Active(previous, level, start), why);
      Tables(if SnoozeExpired(policy, f.generatedAt) then t.policies[f.policy := policy.(snoozedUntil := None)]
             else t.policies,
             events, table.nextId,
             t.states[f.policy := PolicyState(start, f.end.value, level)],
             Muffled(t.deliveries, events), t.clock)
  }

  // ---------- Deliveries ----------

  predicate Known(c: Channel) {
    !c.Unknown?
  }

  /** Whole seconds from `a` to `b`, cut toward zero. */
  function SecondsTo(a: Time, b: Time): int {
    if a <= b then (b - a) / 1000 else -((a - b) / 1000)
  }

  predicate EventHasRows(deliveries: map<DeliveryKey, Delivery>, event: EventId) {
    exists k :: k in deliveries && k.event == event
  }

  predicate EventHasOpenRows(deliveries: map<DeliveryKey, Delivery>, event: EventId) {
    exists k :: k in deliveries && k.event == event && deliveries[k].Open()
  }

  predicate EventHas(deliveries: map<DeliveryKey, Delivery>, event: EventId, status: DeliveryStatus) {
    exists k :: k in deliveries && k.event == event && deliveries[k].status == status
  }

  /** The latest acceptance on this channel for this policy lies within the cooldown. Any
      acceptance does if the latest one does, so no maximum is needed. */
  predicate CoolingDown(deliveries: map<DeliveryKey, Delivery>, events: map<EventId, Event>, policy: PolicyId,
                        channel: Channel, now: Time, minutes: int)
  {
    exists k :: && k in deliveries && k.channel == channel && deliveries[k].sentAt.Some?
                && k.event in events && events[k.event].policy == policy
                && SecondsTo(deliveries[k].sentAt.value, now) < Max(0, minutes) * 60
  }

  datatype LeaseCall = LeaseCall(event: EventId, enabled: seq<Channel>, cooldown: int, desktopCooldown: int, now: Time)

  predicate StaleEvent(e: Event, now: Time) {
    !e.status.Pending? || e.end <= now
  }

  function Cooldown(call: LeaseCall, channel: Channel): int {
    if channel.Kde? && call.desktopCooldown >= 0 then call.desktopCooldown else call.cooldown
  }

  const FRESH := Delivery(Waiting, 0, None, None, NoReason, [])

  function WaitingRows(event: EventId, channels: seq<Channel>): map<DeliveryKey, Delivery> {
    map c | c in channels && Known(c) :: DeliveryKey(event, c) := FRESH
  }

  /** The rows of an event are chosen once, from the channels enabled at that moment. */
  function Snapshot(t: Tables, call: LeaseCall): map<DeliveryKey, Delivery>
    requires call.event in t.events
  {
    if EventHasRows(t.deliveries, call.event) || StaleEvent(t.events[call.event], call.now) then t.deliveries
    else t.deliveries + WaitingRows(call.event, call.enabled)
  }

  /** A row is leased when it is open, its event current, its channel enabled, its wait
      over, its first attempt not cooling down, and fewer than three attempts were made. */
  function Leased(e: Event, call: LeaseCall, channel: Channel, d: Delivery, cooling: bool): Delivery {
    if !d.Open() then d
    else if StaleEvent(e, call.now) then d.(status := Muted, reason := Stale)
    else if channel !in call.enabled then d.(status := Muted, reason := ChannelDisabled)
    else if d.nextAt.Some? && d.nextAt.value > call.now then d
    else if d.attempts == 0 && cooling then d
    else if d.attempts >= 3 then d.(status := Dropped, reason := Exhausted)
    else d.(status := InFlight, attempts := d.attempts + 1, leases := d.leases + [call.now],
            nextAt := Some(call.now + 1000 * (Max(60, Cooldown(call, channel) * 60) + 15)))
  }

  predicate Cooling(t: Tables, call: LeaseCall, channel: Channel)
    requires call.event in t.events
  {
    CoolingDown(t.deliveries, t.events, t.events[call.event].policy, channel, call.now, Cooldown(call, channel))
  }

  function LeasedRow(t: Tables, call: LeaseCall, channel: Channel, d: Delivery): Delivery
    requires call.event in t.events
  {
    Leased(t.events[call.event], call, channel, d, Cooling(t, call, channel))
  }

  function LeasedRows(t: Tables, call: LeaseCall, rows: map<DeliveryKey, Delivery>): map<DeliveryKey, Delivery>
    requires call.event in t.events
  {
    map k | k in rows :: if k.event == call.event then LeasedRow(t, call, k.channel, rows[k]) else rows[k]
  }

  /** The status an event deserves from its rows. */
  function Aggregate(deliveries: map<DeliveryKey, Delivery>, event: EventId): EventStatus {
    if EventHas(deliveries, event, Dropped) then Failed
    else if EventHas(deliveries, event, Sent) then Delivered
    else Suppressed
  }

  /** Closes a pending event without open rows. */
  function Settled(t: Tables, event: EventId, status: EventStatus): Tables {
    if event in t.events && t.events[event].status.Pending? && !EventHasOpenRows(t.deliveries, event)
    then t.(events := t.events[event := t.events[event].(status := status, settled := true)])
    else t
  }

  /** One committed `prepareChannelDeliveries`; an unknown event changes nothing. */
  function Prepared(t: Tables, call: LeaseCall): Tables {
    if call.event !in t.events then t
    else
      var rows := LeasedRows(t, call, Snapshot(t, call));
      Settled(t.(deliveries := rows, clock := call.now), call.event, Aggregate(rows, call.event))
  }

  datatype ReportCall = ReportCall(event: EventId, channel: Channel, accepted: bool, retryable: bool,
                                   reason: Reason, retryAfter: int, cooldown: int, now: Time)

  function Reported(d: Delivery, call: ReportCall): Delivery {
    d.(status := if call.accepted then Sent else if call.retryable && d.attempts < 3 then Waiting else Dropped,
       reason := if call.accepted then NoReason else call.reason,
       sentAt := if call.accepted then Some(call.now) else None,
       nextAt := Some(call.now + 1000 * Max(Max(60, call.cooldown * 60), Max(0, call.retryAfter))))
  }

  /** One committed `completeChannelDelivery`; only an in-flight row can be reported on. */
  function Completed(t: Tables, call: ReportCall): Tables {
    var key := DeliveryKey(call.event, call.channel);
    if key !in t.deliveries || !t.deliveries[key].status.InFlight? || call.event !in t.events then t
    else
      var rows := t.deliveries[key := Reported(t.deliveries[key], call)];
      Settled(t.(deliveries := rows, clock := call.now), call.event,
              if EventHas(rows, call.event, Dropped) then Failed else Delivered)
  }
}
