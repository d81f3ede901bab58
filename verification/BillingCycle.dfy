/** Billing cycles: the period of a policy that contains an instant, in a time zone given by
    the instants of its local midnights. */
module BillingCycle {
  import opened Options
  import opened Calendar

  type Time = int  // milliseconds

  /** The UTC instant at which each local day begins. */
  type Zone = int -> Time

  ghost predicate Increasing(zone: Zone) {
    forall a, b :: a < b ==> zone(a) < zone(b)
  }

  /** The local day at an instant: the one whose midnights enclose it. */
  ghost predicate IsLocalDay(zone: Zone, n: int, now: Time) {
    zone(n) <= now < zone(n + 1)
  }

  datatype Period = ProviderReset | CalendarDay | IsoWeek | CalendarMonth | AnchoredMonth | Unknown

  datatype Provider = Provider(start: Option<Time>, reset: Option<Time>, stable: bool, authenticated: bool, supported: bool)

  datatype Request = Request(period: Period, anchorDay: int, zone: Option<Zone>, provider: Provider)

  datatype Reason = UnstableReset | InvalidPolicy

  datatype Cycle = Cycle(start: Time, end: Time) | Invalid(reason: Reason)

  // ---------- Local days ----------

  /** Strictly increasing midnights leave no instant without a day. */
  lemma LocalDayExists(zone: Zone, now: Time)
    requires Increasing(zone)
    ensures exists n :: IsLocalDay(zone, n, now)
  {
    var n := 0;
    while zone(n + 1) <= now
      decreases now - zone(n)
    {
      n := n + 1;
    }
    while now < zone(n)
      invariant now < zone(n + 1)
      decreases zone(n) - now
    {
      n := n - 1;
    }
    assert IsLocalDay(zone, n, now);
  }

  ghost function LocalDay(zone: Zone, now: Time): (n: int)
    requires Increasing(zone)
    ensures IsLocalDay(zone, n, now)
  {
    LocalDayExists(zone, now);
    var n :| IsLocalDay(zone, n, now);
    n
  }

  lemma InZone(zone: Zone, a: int, b: int)
    requires Increasing(zone) && a <= b
    ensures zone(a) <= zone(b)
  {}

  /** So `LocalDay` leaves no choice. */
  lemma LocalDayUnique(zone: Zone, a: int, b: int, now: Time)
    requires Increasing(zone) && IsLocalDay(zone, a, now) && IsLocalDay(zone, b, now)
    ensures a == b
  {
    if a < b {
      InZone(zone, a + 1, b);
    }
    if b < a {
      InZone(zone, b + 1, a);
    }
  }

  // ---------- Periods in days ----------

  predicate KnownPeriod(period: Period, anchorDay: int) {
    period.CalendarDay? || period.IsoWeek? || period.CalendarMonth? || (period.AnchoredMonth? && 1 <= anchorDay <= 28)
  }

  /** The first day of the period around day `n`. */
  function StartDate(period: Period, anchorDay: int, n: int): (d: Date)
    requires KnownPeriod(period, anchorDay)
    ensures Valid(d)
    ensures period.CalendarMonth? || period.AnchoredMonth? ==> d.day <= 28
  {
    var today := DateOf(n);
    match period
    case CalendarDay => today
    case IsoWeek => DateOf(n + 1 - DayOfWeek(n))
    case CalendarMonth => First(today.year, today.month)
    case AnchoredMonth =>
      var anchor := Date(today.year, today.month, anchorDay);
      if n >= DayNumber(anchor) then anchor else PreviousMonth(anchor)
  }

  /** The day after the period. */
  function EndDate(period: Period, anchorDay: int, n: int): (d: Date)
    requires KnownPeriod(period, anchorDay)
    ensures Valid(d)
  {
    var start := StartDate(period, anchorDay, n);
    match period
    case CalendarDay => DateOf(n + 1)
    case IsoWeek => DateOf(DayNumber(start) + 7)
    case CalendarMonth => NextMonth(start)
    case AnchoredMonth => NextMonth(start)
  }

  function StartDay(period: Period, anchorDay: int, n: int): int
    requires KnownPeriod(period, anchorDay)
  {
    DayNumber(StartDate(period, anchorDay, n))
  }

  function EndDay(period: Period, anchorDay: int, n: int): int
    requires KnownPeriod(period, anchorDay)
  {
    DayNumber(EndDate(period, anchorDay, n))
  }

  // ---------- Resolution ----------

  ghost function Resolve(r: Request, now: Time): Cycle
    requires r.zone.Some? ==> Increasing(r.zone.value)
  {
    if r.period.ProviderReset? then
      var p := r.provider;
      if !p.supported || !p.authenticated || !p.stable || p.start.None? || p.reset.None?
         || p.start.value >= p.reset.value || now < p.start.value || now >= p.reset.value
      then Invalid(UnstableReset)
      else Cycle(p.start.value, p.reset.value)
    else if r.zone.None? || !KnownPeriod(r.period, r.anchorDay) then Invalid(InvalidPolicy)
    else
      var n := LocalDay(r.zone.value, now);
      var start := r.zone.value(StartDay(r.period, r.anchorDay, n));
      var end := r.zone.value(EndDay(r.period, r.anchorDay, n));
      if now < start || now >= end then Invalid(InvalidPolicy) else Cycle(start, end)
  }

  predicate ValidCycle(c: Cycle) {
    c.Cycle? && c.start < c.end
  }

  /** The cycle before `current`. */
  ghost function Previous(r: Request, current: Cycle): Cycle
    requires r.zone.Some? ==> Increasing(r.zone.value)
  {
    if !ValidCycle(current) then (if current.Invalid? then current else Invalid(InvalidPolicy))
    else if r.period.ProviderReset? then Invalid(UnstableReset)
    else Resolve(r, current.start - 1)
  }

  // ---------- Periods partition the days ----------

  /** Day `n` lies in its period, and every day of that period has the same period. */
  ghost predicate IsCell(period: Period, anchorDay: int, n: int)
    requires KnownPeriod(period, anchorDay)
  {
    && StartDay(period, anchorDay, n) <= n < EndDay(period, anchorDay, n)
    && forall m :: StartDay(period, anchorDay, n) <= m < EndDay(period, anchorDay, n) ==>
         && StartDay(period, anchorDay, m) == StartDay(period, anchorDay, n)
         && EndDay(period, anchorDay, m) == EndDay(period, anchorDay, n)
  }

  lemma MondayOf(n: int)
    ensures (n + 1 - DayOfWeek(n) + 5) % 7 == 0
    ensures n + 1 - DayOfWeek(n) <= n < n + 1 - DayOfWeek(n) + 7
  {
    var week := (n + 5) / 7;
    assert n + 5 == 7 * week + (n + 5) % 7;
    assert n + 1 - DayOfWeek(n) + 5 == 7 * week;
  }

  lemma SameWeek(monday: int, k: int)
    requires (monday + 5) % 7 == 0 && 0 <= k < 7
    ensures DayOfWeek(monday + k) == k + 1
  {
    assert monday + k + 5 == 7 * ((monday + 5) / 7) + k;
  }

  lemma WeekStart(n: int, m: int)
    requires n + 1 - DayOfWeek(n) <= m < n + 1 - DayOfWeek(n) + 7
    ensures m + 1 - DayOfWeek(m) == n + 1 - DayOfWeek(n)
  {
    MondayOf(n);
    SameWeek(n + 1 - DayOfWeek(n), m - (n + 1 - DayOfWeek(n)));
  }

  lemma WeekIsCell(anchorDay: int, n: int)
    ensures IsCell(IsoWeek, anchorDay, n)
  {
    var start, end := StartDay(IsoWeek, anchorDay, n), EndDay(IsoWeek, anchorDay, n);
    assert start == n + 1 - DayOfWeek(n) && end == start + 7;
    forall m | start <= m < end
      ensures StartDay(IsoWeek, anchorDay, m) == start && EndDay(IsoWeek, anchorDay, m) == end
    {
      WeekStart(n, m);
    }
  }

  /** The `k`-th day after the first of a month that is still in that month. */
  lemma DayOfMonth(year: int, month: int, k: int)
    requires 1 <= month <= 12 && 0 <= k < MonthLength(year, month)
    ensures DateOf(DayNumber(First(year, month)) + k) == Date(year, month, k + 1)
  {
    DateOfNumber(Date(year, month, k + 1));
  }

  lemma MonthIsCell(anchorDay: int, n: int)
    ensures IsCell(CalendarMonth, anchorDay, n)
  {
    var today := DateOf(n);
    var first := First(today.year, today.month);
    NextMonthAhead(first);
    forall m | DayNumber(first) <= m < DayNumber(first) + MonthLength(today.year, today.month)
      ensures First(DateOf(m).year, DateOf(m).month) == first
    {
      DayOfMonth(today.year, today.month, m - DayNumber(first));
    }
  }

  lemma AnchorBefore(anchor: Date, m: int)
    requires 1 <= anchor.month <= 12 && 1 <= anchor.day <= 28
    requires DayNumber(anchor) <= m < DayNumber(NextMonth(First(anchor.year, anchor.month)))
    ensures StartDate(AnchoredMonth, anchor.day, m) == anchor
  {
    var first := First(anchor.year, anchor.month);
    NextMonthAhead(first);
    DayOfMonth(anchor.year, anchor.month, m - DayNumber(first));
  }

  lemma AnchorAhead(anchor: Date, m: int)
    requires 1 <= anchor.month <= 12 && 1 <= anchor.day <= 28
    requires DayNumber(NextMonth(First(anchor.year, anchor.month))) <= m < DayNumber(NextMonth(anchor))
    ensures StartDate(AnchoredMonth, anchor.day, m) == anchor
  {
    var next := NextMonth(First(anchor.year, anchor.month));
    NextMonthAhead(next);
    assert Date(next.year, next.month, anchor.day) == NextMonth(anchor);
    DayOfMonth(next.year, next.month, m - DayNumber(next));
    assert PreviousMonth(NextMonth(anchor)) == anchor;
  }

  /** The period of an anchor runs to the anchor of the next month, and knows its own days. */
  lemma AnchorOfDay(anchor: Date, m: int)
    requires 1 <= anchor.month <= 12 && 1 <= anchor.day <= 28
    requires DayNumber(anchor) <= m < DayNumber(NextMonth(anchor))
    ensures StartDate(AnchoredMonth, anchor.day, m) == anchor
  {
    if m < DayNumber(NextMonth(First(anchor.year, anchor.month))) {
      AnchorBefore(anchor, m);
    } else {
      AnchorAhead(anchor, m);
    }
  }

  lemma AnchoredIsCell(anchorDay: int, n: int)
    requires 1 <= anchorDay <= 28
    ensures IsCell(AnchoredMonth, anchorDay, n)
  {
    var today := DateOf(n);
    var anchor := Date(today.year, today.month, anchorDay);
    var start := StartDate(AnchoredMonth, anchorDay, n);
    NextMonthAhead(anchor);
    NextMonthAhead(PreviousMonth(anchor));
    assert start.day == anchorDay;
    forall m | DayNumber(start) <= m < DayNumber(NextMonth(start))
      ensures StartDate(AnchoredMonth, anchorDay, m) == start
    {
      AnchorOfDay(start, m);
    }
  }

  lemma PeriodsAreCells(period: Period, anchorDay: int, n: int)
    requires KnownPeriod(period, anchorDay)
    ensures IsCell(period, anchorDay, n)
  {
    match period
    case CalendarDay =>
    case IsoWeek => WeekIsCell(anchorDay, n);
    case CalendarMonth => MonthIsCell(anchorDay, n);
    case AnchoredMonth => AnchoredIsCell(anchorDay, n);
  }

  // ---------- Cycles tile time ----------

  /** A local period always resolves, to a cycle around `now`. */
  lemma ResolvesAround(r: Request, now: Time)
    requires r.zone.Some? && Increasing(r.zone.value) && KnownPeriod(r.period, r.anchorDay)
    ensures
      var n := LocalDay(r.zone.value, now);
      && Resolve(r, now) == Cycle(r.zone.value(StartDay(r.period, r.anchorDay, n)), r.zone.value(EndDay(r.period, r.anchorDay, n)))
      && Resolve(r, now).start <= now < Resolve(r, now).end
  {
    var zone, n := r.zone.value, LocalDay(r.zone.value, now);
    PeriodsAreCells(r.period, r.anchorDay, n);
    InZone(zone, StartDay(r.period, r.anchorDay, n), n);
    InZone(zone, n + 1, EndDay(r.period, r.anchorDay, n));
  }

  lemma DayInside(zone: Zone, start: int, end: int, m: int, t: Time)
    requires Increasing(zone) && IsLocalDay(zone, m, t) && zone(start) <= t < zone(end)
    ensures start <= m < end
  {
    if m < start {
      InZone(zone, m + 1, start);
    }
    if m >= end {
      InZone(zone, end, m);
    }
  }

  /** Every instant of a resolved cycle, its own one included, resolves to the same cycle. */
  lemma SameCycleThroughout(r: Request, now: Time, t: Time)
    requires r.zone.Some? ==> Increasing(r.zone.value)
    requires Resolve(r, now).Cycle? && Resolve(r, now).start <= t < Resolve(r, now).end
    ensures Resolve(r, t) == Resolve(r, now) && Resolve(r, now).start <= now < Resolve(r, now).end
  {
    if !r.period.ProviderReset? {
      SameLocalCycle(r, now, t);
    }
  }

  lemma SameLocalCycle(r: Request, now: Time, t: Time)
    requires r.zone.Some? && Increasing(r.zone.value) && KnownPeriod(r.period, r.anchorDay)
    requires Resolve(r, now).Cycle? && Resolve(r, now).start <= t < Resolve(r, now).end
    ensures Resolve(r, t) == Resolve(r, now)
  {
    var zone := r.zone.value;
    var n, m := LocalDay(zone, now), LocalDay(zone, t);
    ResolvesAround(r, now);
    ResolvesAround(r, t);
    PeriodsAreCells(r.period, r.anchorDay, n);
    DayInside(zone, StartDay(r.period, r.anchorDay, n), EndDay(r.period, r.anchorDay, n), m, t);
  }

  /** Two resolved cycles, the second around the instant before the first, meet. */
  lemma Adjacent(r: Request, now: Time, before: Time, current: Cycle, earlier: Cycle)
    requires r.zone.Some? && Increasing(r.zone.value) && KnownPeriod(r.period, r.anchorDay)
    requires current == Resolve(r, now) && current.Cycle? && before == current.start - 1
    requires earlier == Resolve(r, before) && earlier.Cycle? && earlier.start <= before < earlier.end
    requires current.start <= now < current.end
    ensures earlier.end == current.start
  {
    if earlier.end > current.start {
      SameLocalCycle(r, before, current.start);
      SameLocalCycle(r, now, current.start);
    }
  }

  /** `ResolvesAround` without the days. */
  lemma Encloses(r: Request, now: Time, c: Cycle)
    requires r.zone.Some? && Increasing(r.zone.value) && KnownPeriod(r.period, r.anchorDay)
    requires c == Resolve(r, now)
    ensures c.Cycle? && c.start <= now < c.end
  {
    ResolvesAround(r, now);
  }

  /** The previous cycle ends exactly where the current one starts. */
  lemma CyclesTile(r: Request, now: Time, current: Cycle, earlier: Cycle)
    requires r.zone.Some? && Increasing(r.zone.value) && KnownPeriod(r.period, r.anchorDay)
    requires current == Resolve(r, now) && earlier == Previous(r, current)
    ensures ValidCycle(current) && ValidCycle(earlier) && earlier.end == current.start
  {
    Encloses(r, now, current);
    assert earlier == Resolve(r, current.start - 1);
    Encloses(r, current.start - 1, earlier);
    Adjacent(r, now, current.start - 1, current, earlier);
  }

  /** Resolution fails exactly for unstable or passed provider periods, missing zones and bad periods. */
  lemma ResolvesIff(r: Request, now: Time)
    requires r.zone.Some? ==> Increasing(r.zone.value)
    ensures ValidCycle(Resolve(r, now)) <==>
              if r.period.ProviderReset? then
                var p := r.provider;
                && p.supported && p.authenticated && p.stable && p.start.Some? && p.reset.Some?
                && p.start.value <= now < p.reset.value
              else r.zone.Some? && KnownPeriod(r.period, r.anchorDay)
  {
    if r.zone.Some? && KnownPeriod(r.period, r.anchorDay) {
      ResolvesAround(r, now);
    }
  }

  // ---------- Where cycles start ----------

  ghost predicate IsMonth(start: int, end: int, year: int, month: int, day: int) {
    && 1 <= month <= 12 && 1 <= day <= 28 && start == DayNumber(Date(year, month, day))
    && end == DayNumber(if month == 12 then Date(year + 1, 1, day) else Date(year, month + 1, day))
  }

  /** One day, seven days from a Monday, such as 1 January 2024, or a month from its first or its
      anchor to the same day of the next. */
  ghost predicate IsPeriod(period: Period, anchorDay: int, start: int, end: int) {
    match period
    case CalendarDay => end == start + 1
    case IsoWeek => end == start + 7 && (start - DayNumber(Date(2024, 1, 1))) % 7 == 0
    case CalendarMonth => exists year, month :: IsMonth(start, end, year, month, 1)
    case AnchoredMonth => exists year, month :: IsMonth(start, end, year, month, anchorDay)
    case _ => false
  }

  lemma WeekFromMonday(n: int)
    ensures (n + 1 - DayOfWeek(n) - DayNumber(Date(2024, 1, 1))) % 7 == 0
  {
    MondayOf(n);
    assert DaysBeforeMonth(2024, 1) == 0;
    assert DayNumber(Date(2024, 1, 1)) == 739_251;
  }

  lemma PeriodsStartRight(period: Period, anchorDay: int, n: int)
    requires KnownPeriod(period, anchorDay)
    ensures IsPeriod(period, anchorDay, StartDay(period, anchorDay, n), EndDay(period, anchorDay, n))
  {
    hide DayNumber, DateOf, DayOfWeek;
    var start := StartDate(period, anchorDay, n);
    match period
    case CalendarDay =>
    case IsoWeek => WeekFromMonday(n);
    case CalendarMonth => assert IsMonth(DayNumber(start), DayNumber(NextMonth(start)), start.year, start.month, 1);
    case AnchoredMonth => assert IsMonth(DayNumber(start), DayNumber(NextMonth(start)), start.year, start.month, anchorDay);
  }

  ghost predicate Spans(c: Cycle, zone: Zone, period: Period, anchorDay: int, start: int, end: int) {
    IsPeriod(period, anchorDay, start, end) && c == Cycle(zone(start), zone(end))
  }

  /** A resolved cycle is a day, a week from Monday or a month from its day, between local midnights,
      or the provider's own period. */
  lemma ResolvesToPeriod(r: Request, now: Time)
    requires r.zone.Some? ==> Increasing(r.zone.value)
    requires Resolve(r, now).Cycle?
    ensures r.period.ProviderReset? ==> Resolve(r, now) == Cycle(r.provider.start.value, r.provider.reset.value)
    ensures !r.period.ProviderReset? ==>
              r.zone.Some? && exists start, end :: Spans(Resolve(r, now), r.zone.value, r.period, r.anchorDay, start, end)
  {
    if !r.period.ProviderReset? {
      var n := LocalDay(r.zone.value, now);
      PeriodsStartRight(r.period, r.anchorDay, n);
      assert Spans(Resolve(r, now), r.zone.value, r.period, r.anchorDay, StartDay(r.period, r.anchorDay, n), EndDay(r.period, r.anchorDay, n));
    }
  }
}
