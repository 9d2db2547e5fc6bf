/**
 * Proleptic Gregorian dates and timestamps with the range and arithmetic of
 * Python's `datetime.date`: years 1..9999, `toordinal()` day numbers,
 * `weekday()` (Monday is 0), and `timedelta(days = n)` steps that overflow at
 * either end of the range.
 */
module Calendar {
  import opened Results

  const MinYear: int := 1
  const MaxYear: int := 9999
  const SecondsPerDay: int := 86400

  datatype Date = Date(year: int, month: int, day: int)

  /** A calendar date in seconds resolution; time zones are not modelled. */
  datatype Timestamp = Timestamp(date: Date, second: int)

  const MinDate: Date := Date(MinYear, 1, 1)
  const MaxDate: Date := Date(MaxYear, 12, 31)

  predicate IsLeapYear(y: int) {
    y % 4 == 0 && (y % 100 != 0 || y % 400 == 0)
  }

  function DaysInYear(y: int): int {
    if IsLeapYear(y) then 366 else 365
  }

  function DaysInMonth(y: int, m: int): (n: int)
    requires 1 <= m <= 12
    ensures 28 <= n <= 31
  {
    if m == 2 then (if IsLeapYear(y) then 29 else 28)
    else if m == 4 || m == 6 || m == 9 || m == 11 then 30
    else 31
  }

  /** A date Python can represent. */
  predicate Valid(d: Date) {
    && MinYear <= d.year <= MaxYear
    && 1 <= d.month <= 12
    && 1 <= d.day <= DaysInMonth(d.year, d.month)
  }

  predicate ValidTimestamp(t: Timestamp) {
    Valid(t.date) && 0 <= t.second < SecondsPerDay
  }

  /** Days in the years before year `y` (Python's `_days_before_year`). */
  function DaysBeforeYear(y: int): int {
    var p := y - 1;
    p * 365 + p / 4 - p / 100 + p / 400
  }

  /** Days in the months of year `y` before month `m`; `m == 13` gives the whole year. */
  function DaysBeforeMonth(y: int, m: int): int
    requires 1 <= m <= 13
  {
    var leap := if IsLeapYear(y) && m > 2 then 1 else 0;
    leap +
    (if m == 1 then 0 else if m == 2 then 31 else if m == 3 then 59
     else if m == 4 then 90 else if m == 5 then 120 else if m == 6 then 151
     else if m == 7 then 181 else if m == 8 then 212 else if m == 9 then 243
     else if m == 10 then 273 else if m == 11 then 304 else if m == 12 then 334
     else 365)
  }

  /** Python's `date.toordinal()`: 0001-01-01 is day 1. */
  function Ordinal(d: Date): int
    requires 1 <= d.month <= 12
  {
    DaysBeforeYear(d.year) + DaysBeforeMonth(d.year, d.month) + d.day
  }

  /** Python's `date.weekday()`: Monday is 0 and Sunday is 6. */
  function Weekday(d: Date): (w: int)
    requires Valid(d)
    ensures 0 <= w < 7
    ensures (Ordinal(d) - w) % 7 == 1
  {
    WeekdayArith(Ordinal(d));
    (Ordinal(d) + 6) % 7
  }

  lemma WeekdayArith(o: int)
    ensures (o - (o + 6) % 7) % 7 == 1
  {
  }

  lemma MonthStep(y: int, m: int)
    requires 1 <= m <= 12
    ensures DaysBeforeMonth(y, m + 1) == DaysBeforeMonth(y, m) + DaysInMonth(y, m)
  {
  }

  lemma YearStep(y: int)
    ensures DaysBeforeYear(y + 1) == DaysBeforeYear(y) + DaysInYear(y)
  {
    var p := y - 1;
    assert y / 4 - p / 4 == (if y % 4 == 0 then 1 else 0);
    assert y / 100 - p / 100 == (if y % 100 == 0 then 1 else 0);
    assert y / 400 - p / 400 == (if y % 400 == 0 then 1 else 0);
  }

  lemma {:induction false} YearMonotone(a: int, b: int)
    requires a <= b
    ensures DaysBeforeYear(a) <= DaysBeforeYear(b)
    decreases b - a
  {
    if a < b {
      YearStep(a);
      YearMonotone(a + 1, b);
    }
  }

  /** A valid date's day number lies inside its own year. */
  lemma OrdinalInYear(d: Date)
    requires Valid(d)
    ensures DaysBeforeYear(d.year) < Ordinal(d) <= DaysBeforeYear(d.year + 1)
  {
    YearStep(d.year);
    MonthStep(d.year, d.month);
  }

  lemma OrdinalPositive(d: Date)
    requires Valid(d)
    ensures 1 <= Ordinal(d) <= Ordinal(MaxDate)
  {
    OrdinalInYear(d);
    YearMonotone(MinYear, d.year);
    YearMonotone(d.year + 1, MaxYear + 1);
    OrdinalInYear(MaxDate);
  }

  /** Strict chronological order: Python's `<` on dates. */
  predicate Before(a: Date, b: Date) {
    || a.year < b.year
    || (a.year == b.year && a.month < b.month)
    || (a.year == b.year && a.month == b.month && a.day < b.day)
  }

  /** Python's `<=` on dates. */
  predicate NotAfter(a: Date, b: Date) {
    a == b || Before(a, b)
  }

  lemma {:induction false} BeforeOrdinal(a: Date, b: Date)
    requires Valid(a) && Valid(b) && Before(a, b)
    ensures Ordinal(a) < Ordinal(b)
  {
    if a.year < b.year {
      OrdinalInYear(a);
      OrdinalInYear(b);
      YearMonotone(a.year + 1, b.year);
    } else if a.month < b.month {
      MonthStep(a.year, a.month);
      assert DaysBeforeMonth(a.year, a.month + 1) <= DaysBeforeMonth(a.year, b.month);
    }
  }

  /** Comparing dates is comparing their day numbers. */
  lemma NotAfterIsOrdinalOrder(a: Date, b: Date)
    requires Valid(a) && Valid(b)
    ensures NotAfter(a, b) <==> Ordinal(a) <= Ordinal(b)
  {
    if Before(a, b) {
      BeforeOrdinal(a, b);
    } else if a != b {
      assert Before(b, a);
      BeforeOrdinal(b, a);
    }
  }

  /** `d - timedelta(days=1)`; `None` is the `OverflowError` below 0001-01-01. */
  function PrevDay(d: Date): (r: Option<Date>)
    requires Valid(d)
    ensures r.None? <==> d == MinDate
    ensures r.Some? ==> Valid(r.value) && Ordinal(r.value) == Ordinal(d) - 1
  {
    if d.day > 1 then Some(Date(d.year, d.month, d.day - 1))
    else if d.month > 1 then
      MonthStep(d.year, d.month - 1);
      Some(Date(d.year, d.month - 1, DaysInMonth(d.year, d.month - 1)))
    else if d.year > MinYear then
      YearStep(d.year - 1);
      Some(Date(d.year - 1, 12, 31))
    else None
  }

  /** `d + timedelta(days=1)`; `None` is the `OverflowError` above 9999-12-31. */
  function NextDay(d: Date): (r: Option<Date>)
    requires Valid(d)
    ensures r.None? <==> d == MaxDate
    ensures r.Some? ==> Valid(r.value) && Ordinal(r.value) == Ordinal(d) + 1
  {
    if d.day < DaysInMonth(d.year, d.month) then Some(Date(d.year, d.month, d.day + 1))
    else if d.month < 12 then
      MonthStep(d.year, d.month);
      Some(Date(d.year, d.month + 1, 1))
    else if d.year < MaxYear then
      YearStep(d.year);
      Some(Date(d.year + 1, 1, 1))
    else None
  }

  /** `d - timedelta(days=n)`. */
  function SubDays(d: Date, n: nat): (r: Option<Date>)
    requires Valid(d)
    ensures r.Some? <==> n < Ordinal(d)
    ensures r.Some? ==> Valid(r.value) && Ordinal(r.value) == Ordinal(d) - n
    decreases n
  {
    if n == 0 then OrdinalPositive(d); Some(d)
    else
      match PrevDay(d)
      case None => None
      case Some(p) => SubDays(p, n - 1)
  }

  /** `d + timedelta(days=n)`. */
  function AddDays(d: Date, n: nat): (r: Option<Date>)
    requires Valid(d)
    ensures r.Some? <==> Ordinal(d) + n <= Ordinal(MaxDate)
    ensures r.Some? ==> Valid(r.value) && Ordinal(r.value) == Ordinal(d) + n
    decreases n
  {
    if n == 0 then OrdinalPositive(d); Some(d)
    else
      match NextDay(d)
      case None => None
      case Some(q) => AddDays(q, n - 1)
  }

  /**
   * `is_first_day_of_month`: a date is the first of its month exactly when the
   * day before it (if there is one) lies in another month.
   */
  function IsFirstDayOfMonth(d: Date): (r: bool)
    requires Valid(d)
    ensures r <==> (PrevDay(d).Some? ==> PrevDay(d).value.month != d.month)
  {
    d.day == 1
  }

  /** `d.replace(day=1)`: the first day of `d`'s month, never after `d`. */
  function FirstOfMonth(d: Date): (r: Date)
    requires Valid(d)
    ensures Valid(r) && NotAfter(r, d)
    ensures IsFirstDayOfMonth(r)
    ensures Ordinal(d) - Ordinal(r) == d.day - 1
  {
    Date(d.year, d.month, 1)
  }

  /** Python's `<` on timezone-naive datetimes. */
  predicate TimestampBefore(a: Timestamp, b: Timestamp) {
    Before(a.date, b.date) || (a.date == b.date && a.second < b.second)
  }

  /** `t - timedelta(days=n)`: the same time of day `n` days earlier. */
  function TimestampSubDays(t: Timestamp, n: nat): (r: Option<Timestamp>)
    requires ValidTimestamp(t)
    ensures r.Some? <==> n < Ordinal(t.date)
    ensures r.Some? ==> ValidTimestamp(r.value) && r.value.second == t.second
    ensures r.Some? ==> Ordinal(r.value.date) == Ordinal(t.date) - n
  {
    match SubDays(t.date, n)
    case None => None
    case Some(d) => Some(Timestamp(d, t.second))
  }

  /**
   * On the first of a month, `[yesterday.replace(day=1), yesterday]` is the
   * whole previous month: yesterday is that month's last day, and a date lies
   * in the window exactly when it has yesterday's year and month.
   */
  lemma PreviousMonthWindow(today: Date)
    requires Valid(today) && IsFirstDayOfMonth(today) && today != MinDate
    ensures var y := PrevDay(today).value;
      && y.day == DaysInMonth(y.year, y.month)
      && (if today.month == 1 then y.year == today.year - 1 && y.month == 12
          else y.year == today.year && y.month == today.month - 1)
      && forall x :: Valid(x) ==>
           (NotAfter(FirstOfMonth(y), x) && NotAfter(x, y) <==> x.year == y.year && x.month == y.month)
  {
  }
}
