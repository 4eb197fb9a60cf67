/** Time as the application sees it: timestamps in seconds, day numbers counted
    from 1970-01-01 in the application's time zone, the proleptic Gregorian
    calendar for month and year boundaries, and weeks starting on Monday (the
    calendar library's defaults). `whereBetween` windows include both ends. */
module Calendar {

  type Timestamp = int
  type Day = int

  const SecondsPerDay: int := 86400

  /** The calendar day an instant falls on (`DATE(created_at)`). */
  function DayOf(t: Timestamp): Day
  {
    t / SecondsPerDay
  }

  /** `startOfDay()`: midnight at the start of day `d`. */
  function StartOfDay(d: Day): Timestamp
  {
    d * SecondsPerDay
  }

  /** `endOfDay()`: the last second of day `d`. */
  function EndOfDay(d: Day): Timestamp
  {
    StartOfDay(d) + SecondsPerDay - 1
  }

  /** An instant falls on day `d` exactly when it lies between that day's start and end. */
  lemma DayOfWithin(t: Timestamp, d: Day)
    ensures DayOf(t) == d <==> StartOfDay(d) <= t <= EndOfDay(d)
  {
  }

  /** `startOfWeek()`: the Monday on or before day `d`; day 0 was a Thursday. */
  function StartOfWeek(d: Day): (r: Day)
    ensures r <= d < r + 7
    ensures (r + 3) % 7 == 0
  {
    d - (d + 3) % 7
  }

  predicate IsLeapYear(y: int)
  {
    y % 4 == 0 && (y % 100 != 0 || y % 400 == 0)
  }

  function DaysInYear(y: int): int
  {
    if IsLeapYear(y) then 366 else 365
  }

  function DaysInMonth(y: int, m: int): (n: int)
    requires 1 <= m <= 12
    ensures 28 <= n <= 31
  {
    if m == 2 then (if IsLeapYear(y) then 29 else 28)
    else if m == 4 || m == 6 || m == 9 || m == 11 then 30
    else 31
  }

  /** Days of year `y` before the first of month `m`: (367m - 362) / 12 counts the days before
      month m with a 30-day February, corrected by 2 days, or 1 in a leap year, after February. */
  function DaysBeforeMonth(y: int, m: int): (n: int)
    requires 1 <= m <= 12
    ensures 0 <= n && n + DaysInMonth(y, m) <= DaysInYear(y)
    ensures m == 12 ==> n + DaysInMonth(y, m) == DaysInYear(y)
  {
    (367 * m - 362) / 12 - (if m <= 2 then 0 else if IsLeapYear(y) then 1 else 2)
  }

  lemma NextMonthStart(y: int, m: int)
    requires 1 <= m < 12
    ensures DaysBeforeMonth(y, m + 1) == DaysBeforeMonth(y, m) + DaysInMonth(y, m)
  {
  }

  /** Leap years among 1 .. y (continued below 1 by the same formula). */
  function LeapYearsThrough(y: int): int
  {
    y / 4 - y / 100 + y / 400
  }

  /** Day number of January 1st of year `y`: 365 days per year since 1970 plus one per leap year. */
  function YearStartDay(y: int): Day
  {
    365 * (y - 1970) + LeapYearsThrough(y - 1) - LeapYearsThrough(1969)
  }

  /** The leap years counted through y and through y - 1 differ by one exactly when y is a leap year. */
  lemma LeapYearStep(y: int)
    ensures LeapYearsThrough(y) - LeapYearsThrough(y - 1) == if IsLeapYear(y) then 1 else 0
  {
    QuotientStep4(y);
    QuotientStep100(y);
    QuotientStep400(y);
  }

  /** Consecutive years are DaysInYear apart. */
  lemma YearLength(y: int)
    ensures YearStartDay(y + 1) == YearStartDay(y) + DaysInYear(y)
    ensures YearStartDay(y) + 365 <= YearStartDay(y + 1)
  {
    LeapYearStep(y);
  }

  lemma QuotientStep4(y: int)
    ensures y / 4 - (y - 1) / 4 == if y % 4 == 0 then 1 else 0
  {
  }

  lemma QuotientStep100(y: int)
    ensures y / 100 - (y - 1) / 100 == if y % 100 == 0 then 1 else 0
  {
  }

  lemma QuotientStep400(y: int)
    ensures y / 400 - (y - 1) / 400 == if y % 400 == 0 then 1 else 0
  {
  }

  /** A month is numbered 12 * year + (month - 1), so consecutive months have consecutive numbers. */
  type MonthNumber = int

  function MonthNumberOf(y: int, m: int): MonthNumber
  {
    12 * y + m - 1
  }

  function YearOfMonth(mn: MonthNumber): int
  {
    mn / 12
  }

  function MonthOfYear(mn: MonthNumber): (m: int)
    ensures 1 <= m <= 12
  {
    mn % 12 + 1
  }

  lemma MonthNumberParts(y: int, m: int)
    requires 1 <= m <= 12
    ensures YearOfMonth(MonthNumberOf(y, m)) == y && MonthOfYear(MonthNumberOf(y, m)) == m
  {
  }

  lemma MonthNumberNext(mn: MonthNumber)
    ensures MonthOfYear(mn) < 12 ==> YearOfMonth(mn + 1) == YearOfMonth(mn) && MonthOfYear(mn + 1) == MonthOfYear(mn) + 1
    ensures MonthOfYear(mn) == 12 ==> YearOfMonth(mn + 1) == YearOfMonth(mn) + 1 && MonthOfYear(mn + 1) == 1
  {
  }

  /** Day number of the first day of month `mn`. */
  function MonthStartDay(mn: MonthNumber): Day
  {
    YearStartDay(YearOfMonth(mn)) + DaysBeforeMonth(YearOfMonth(mn), MonthOfYear(mn))
  }

  /** Consecutive months are DaysInMonth apart. */
  lemma MonthLength(mn: MonthNumber)
    ensures MonthStartDay(mn + 1) == MonthStartDay(mn) + DaysInMonth(YearOfMonth(mn), MonthOfYear(mn))
    ensures MonthStartDay(mn) + 28 <= MonthStartDay(mn + 1) <= MonthStartDay(mn) + 31
  {
    var y := YearOfMonth(mn);
    MonthNumberNext(mn);
    if MonthOfYear(mn) == 12 {
      YearLength(y);
    } else {
      NextMonthStart(y, MonthOfYear(mn));
    }
  }

  /** A month lies inside its year. */
  lemma MonthWithinYear(y: int, m: int)
    requires 1 <= m <= 12
    ensures YearStartDay(y) <= MonthStartDay(MonthNumberOf(y, m))
    ensures MonthStartDay(MonthNumberOf(y, m) + 1) <= YearStartDay(y + 1)
  {
    var mn := MonthNumberOf(y, m);
    MonthNumberParts(y, m);
    MonthLength(mn);
    YearLength(y);
  }

  /** What the calendar library reports for "now": the instant and its calendar date. */
  datatype Clock = Clock(now: Timestamp, year: int, month: int, day: int)
  {
    /** The date fields are the calendar date of `now`. */
    predicate Consistent()
    {
      1 <= month <= 12 && 1 <= day <= DaysInMonth(year, month) &&
      DayOf(now) == MonthStartDay(MonthNumberOf(year, month)) + day - 1
    }

    function Today(): Day
    {
      DayOf(now)
    }

    function CurrentMonth(): MonthNumber
    {
      MonthNumberOf(year, month)
    }
  }

  /** A `whereBetween` window: both bounds are included. */
  datatype Window = Window(start: Timestamp, end: Timestamp)
  {
    predicate Contains(t: Timestamp)
    {
      start <= t <= end
    }
  }

  function DayWindow(d: Day): Window
  {
    Window(StartOfDay(d), EndOfDay(d))
  }

  /** From the start of the first day of month `mn` to the last second of its last day. */
  function MonthWindow(mn: MonthNumber): Window
  {
    Window(StartOfDay(MonthStartDay(mn)), StartOfDay(MonthStartDay(mn + 1)) - 1)
  }

  function YearWindow(y: int): Window
  {
    Window(StartOfDay(YearStartDay(y)), StartOfDay(YearStartDay(y + 1)) - 1)
  }

  /** The seven days starting on day `first`, to the end of the last of them (`endOfWeek()`). */
  function WeekWindow(first: Day): Window
  {
    Window(StartOfDay(first), EndOfDay(first + 6))
  }

  /** A month's window ends the second before the next month's begins, and spans at least 28 days. */
  lemma MonthWindowsAdjacent(mn: MonthNumber)
    ensures MonthWindow(mn).end + 1 == MonthWindow(mn + 1).start
    ensures MonthWindow(mn).start + 28 * SecondsPerDay <= MonthWindow(mn).end + 1
  {
    MonthLength(mn);
  }

  /** A year's window ends the second before the next year's begins. */
  lemma YearWindowsAdjacent(y: int)
    ensures YearWindow(y).end + 1 == YearWindow(y + 1).start
    ensures YearWindow(y).start + 365 * SecondsPerDay <= YearWindow(y).end + 1
  {
    YearLength(y);
  }

  /** An instant whose day lies in [lo, hi) lies between the start of day lo and the end of day hi - 1. */
  lemma DaysToInstants(t: Timestamp, lo: Day, hi: Day)
    requires lo <= DayOf(t) < hi
    ensures StartOfDay(lo) <= t <= StartOfDay(hi) - 1
  {
    DayOfWithin(t, DayOf(t));
  }

  /** A consistent clock's day lies in its own month. */
  lemma TodayInCurrentMonth(c: Clock)
    requires c.Consistent()
    ensures MonthStartDay(c.CurrentMonth()) <= c.Today() < MonthStartDay(c.CurrentMonth() + 1)
  {
    MonthNumberParts(c.year, c.month);
    MonthLength(c.CurrentMonth());
  }

  /** A consistent clock's instant lies in its own month's window. */
  lemma NowInCurrentMonth(c: Clock)
    requires c.Consistent()
    ensures MonthWindow(c.CurrentMonth()).Contains(c.now)
  {
    var mn := c.CurrentMonth();
    TodayInCurrentMonth(c);
    DaysToInstants(c.now, MonthStartDay(mn), MonthStartDay(mn + 1));
  }

  /** A consistent clock's instant lies in its own year's window. */
  lemma NowInCurrentYear(c: Clock)
    requires c.Consistent()
    ensures YearWindow(c.year).Contains(c.now)
  {
    TodayInCurrentMonth(c);
    MonthWithinYear(c.year, c.month);
    DaysToInstants(c.now, YearStartDay(c.year), YearStartDay(c.year + 1));
  }
}
