/** The proleptic Gregorian calendar, with days numbered consecutively. */
module Calendar {
  datatype Date = Date(year: int, month: int, day: int)

  const DAY_MS := 86_400_000

  predicate Leap(year: int) {
    year % 4 == 0 && (year % 100 != 0 || year % 400 == 0)
  }

  function MonthLength(year: int, month: int): (n: int)
    ensures 28 <= n <= 31
  {
    if month == 2 then (if Leap(year) then 29 else 28)
    else if month == 4 || month == 6 || month == 9 || month == 11 then 30 else 31
  }

  predicate Valid(d: Date) {
    1 <= d.month <= 12 && 1 <= d.day <= MonthLength(d.year, d.month)
  }

  function LeapsThrough(year: int): int {
    year / 4 - year / 100 + year / 400
  }

  function DaysBeforeYear(year: int): int {
    365 * year + LeapsThrough(year - 1)
  }

  function DaysBeforeMonth(year: int, month: int): int
    requires 1 <= month <= 13
  {
    if month == 1 then 0 else DaysBeforeMonth(year, month - 1) + MonthLength(year, month - 1)
  }

  function DayNumber(d: Date): int
    requires Valid(d)
  {
    DaysBeforeYear(d.year) + DaysBeforeMonth(d.year, d.month) + d.day
  }

  /** 1 is Monday and 7 is Sunday, as in section 4.1.4 of ISO 8601:2004. */
  function DayOfWeek(n: int): (w: int)
    ensures 1 <= w <= 7
  {
    (n + 5) % 7 + 1
  }

  lemma YearLength(year: int)
    ensures DaysBeforeYear(year + 1) == DaysBeforeYear(year) + if Leap(year) then 366 else 365
  {
    StepQuotient(year, 4);
    StepQuotient(year, 100);
    StepQuotient(year, 400);
    Multiples(year);
  }

  lemma Multiples(year: int)
    ensures year % 400 == 0 ==> year % 100 == 0
    ensures year % 100 == 0 ==> year % 4 == 0
  {
    if year % 400 == 0 {
      MultipleOf(4 * (year / 400), 100);
    }
    if year % 100 == 0 {
      MultipleOf(25 * (year / 100), 4);
    }
  }

  lemma MultipleOf(q: int, d: int)
    requires d == 4 || d == 100
    ensures (d * q) % d == 0
  {}

  lemma StepQuotient(x: int, d: int)
    requires d == 4 || d == 100 || d == 400
    ensures x / d == (x - 1) / d + if x % d == 0 then 1 else 0
  {}

  lemma MonthsFillYear(year: int)
    ensures DaysBeforeMonth(year, 13) == if Leap(year) then 366 else 365
  {
    assert DaysBeforeMonth(year, 2) == 31;
    assert DaysBeforeMonth(year, 3) == 31 + MonthLength(year, 2);
    assert DaysBeforeMonth(year, 5) == DaysBeforeMonth(year, 3) + 61;
    assert DaysBeforeMonth(year, 7) == DaysBeforeMonth(year, 5) + 61;
    assert DaysBeforeMonth(year, 9) == DaysBeforeMonth(year, 7) + 62;
    assert DaysBeforeMonth(year, 11) == DaysBeforeMonth(year, 9) + 61;
    assert DaysBeforeMonth(year, 13) == DaysBeforeMonth(year, 11) + 61;
  }

  // ---------- Months ----------

  function First(year: int, month: int): Date {
    Date(year, month, 1)
  }

  /** The same day a month later; every month has at least 28 days. */
  function NextMonth(d: Date): (later: Date)
    requires 1 <= d.month <= 12 && 1 <= d.day <= 28
    ensures Valid(later)
  {
    if d.month == 12 then Date(d.year + 1, 1, d.day) else Date(d.year, d.month + 1, d.day)
  }

  function PreviousMonth(d: Date): (earlier: Date)
    requires 1 <= d.month <= 12 && 1 <= d.day <= 28
    ensures Valid(earlier) && earlier.day == d.day && NextMonth(earlier) == d
  {
    if d.month == 1 then Date(d.year - 1, 12, d.day) else Date(d.year, d.month - 1, d.day)
  }

  lemma NextMonthAhead(d: Date)
    requires 1 <= d.month <= 12 && 1 <= d.day <= 28
    ensures Valid(d) && DayNumber(NextMonth(d)) == DayNumber(d) + MonthLength(d.year, d.month)
  {
    if d.month == 12 {
      YearLength(d.year);
      MonthsFillYear(d.year);
      assert DaysBeforeMonth(d.year, 13) == DaysBeforeMonth(d.year, 12) + MonthLength(d.year, 12);
    }
  }

  // ---------- Consecutive days ----------

  function Tomorrow(d: Date): (t: Date)
    requires Valid(d)
    ensures Valid(t)
  {
    if d.day < MonthLength(d.year, d.month) then d.(day := d.day + 1) else NextMonth(First(d.year, d.month))
  }

  lemma TomorrowIsNext(d: Date)
    requires Valid(d)
    ensures DayNumber(Tomorrow(d)) == DayNumber(d) + 1
  {
    NextMonthAhead(First(d.year, d.month));
  }

  function Yesterday(d: Date): (y: Date)
    requires Valid(d)
    ensures Valid(y) && Tomorrow(y) == d
  {
    if d.day > 1 then d.(day := d.day - 1)
    else
      var m := PreviousMonth(First(d.year, d.month));
      Date(m.year, m.month, MonthLength(m.year, m.month))
  }

  const EPOCH := Date(1970, 1, 1)
  const EPOCH_DAY := 719_528

  /** The date with a given number, counted from 1 January 1970. */
  function DateOf(n: int): (d: Date)
    ensures Valid(d) && DayNumber(d) == n
    decreases if n < EPOCH_DAY then EPOCH_DAY - n else n - EPOCH_DAY
  {
    if n == EPOCH_DAY then EPOCH
    else if n > EPOCH_DAY then
      var d := DateOf(n - 1);
      TomorrowIsNext(d);
      Tomorrow(d)
    else
      var d := DateOf(n + 1);
      TomorrowIsNext(Yesterday(d));
      Yesterday(d)
  }

  // ---------- Order ----------

  predicate Before(a: Date, b: Date) {
    a.year < b.year || (a.year == b.year && (a.month < b.month || (a.month == b.month && a.day < b.day)))
  }

  lemma {:induction false} YearsAhead(a: int, b: int)
    requires a < b
    ensures DaysBeforeYear(a) + DaysBeforeMonth(a, 13) <= DaysBeforeYear(b)
    decreases b - a
  {
    MonthsFillYear(a);
    YearLength(a);
    if a + 1 < b {
      MonthsFillYear(a + 1);
      YearsAhead(a + 1, b);
    }
  }

  lemma {:induction false} MonthsAhead(year: int, a: int, b: int)
    requires 1 <= a < b <= 13
    ensures DaysBeforeMonth(year, a) + MonthLength(year, a) <= DaysBeforeMonth(year, b)
    decreases b - a
  {
    if a + 1 < b {
      MonthsAhead(year, a + 1, b);
    }
  }

  lemma NumbersFollowOrder(a: Date, b: Date)
    requires Valid(a) && Valid(b) && Before(a, b)
    ensures DayNumber(a) < DayNumber(b)
  {
    if a.year < b.year {
      YearsAhead(a.year, b.year);
      MonthsAhead(a.year, a.month, 13);
      if b.month > 1 {
        MonthsAhead(b.year, 1, b.month);
      }
    } else if a.month < b.month {
      MonthsAhead(a.year, a.month, b.month);
    }
  }

  /** A date is determined by its number. */
  lemma DateOfNumber(d: Date)
    requires Valid(d)
    ensures DateOf(DayNumber(d)) == d
  {
    var e := DateOf(DayNumber(d));
    if Before(d, e) {
      NumbersFollowOrder(d, e);
    } else if Before(e, d) {
      NumbersFollowOrder(e, d);
    }
  }
}
