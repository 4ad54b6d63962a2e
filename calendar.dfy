/** A hand-written stand-in for the parts of Python's `datetime.datetime` that
    the calculator uses: the date-and-time record, `replace` of its time fields
    and the Gregorian day of the year `timetuple().tm_yday`. */
module Calendar {

  const MinYear: int := 1
  const MaxYear: int := 9999

  /** The Gregorian leap rule of the proleptic calendar `datetime` uses. */
  predicate IsLeapYear(year: int) {
    year % 4 == 0 && (year % 100 != 0 || year % 400 == 0)
  }

  /** Length of a month, given whether February has 29 days. */
  function MonthLength(month: int, leap: bool): (n: int)
    requires 1 <= month <= 12
    ensures 28 <= n <= 31
    ensures month == 2 ==> n == (if leap then 29 else 28)
  {
    if month == 2 then (if leap then 29 else 28)
    else if month == 4 || month == 6 || month == 9 || month == 11 then 30
    else 31
  }

  /** The sum of the lengths of the months before `month`. */
  function DaysBeforeMonth(month: int, leap: bool): (n: int)
    requires 1 <= month <= 13
    decreases month
  {
    if month == 1 then 0 else DaysBeforeMonth(month - 1, leap) + MonthLength(month - 1, leap)
  }

  /** A leap February adds one day before every month after February. */
  lemma {:induction false} DaysBeforeMonthLeapShift(month: int)
    requires 1 <= month <= 13
    ensures DaysBeforeMonth(month, true) == DaysBeforeMonth(month, false) + (if month > 2 then 1 else 0)
  {
    if month > 1 {
      DaysBeforeMonthLeapShift(month - 1);
    }
  }

  /** The months before `month` leave room for that month in a year of 365 or 366 days. */
  lemma DaysBeforeMonthBound(month: int, leap: bool)
    requires 1 <= month <= 12
    ensures 0 <= DaysBeforeMonth(month, leap)
    ensures DaysBeforeMonth(month, leap) + MonthLength(month, leap) <= (if leap then 366 else 365)
  {
    DaysBeforeMonthMonotone(1, month, leap);
    DaysBeforeMonthMonotone(month + 1, 13, leap);
    YearLength(leap);
  }

  /** All twelve months together make 365 days, or 366 with a leap February. */
  lemma YearLength(leap: bool)
    ensures DaysBeforeMonth(13, leap) == if leap then 366 else 365
  {
    assert DaysBeforeMonth(4, leap) == 90 + (if leap then 1 else 0);
    assert DaysBeforeMonth(8, leap) == 212 + (if leap then 1 else 0);
  }

  /** Each month has at least 28 days, so the count grows with the month. */
  lemma {:induction false} DaysBeforeMonthMonotone(a: int, b: int, leap: bool)
    requires 1 <= a <= b <= 13
    ensures DaysBeforeMonth(a, leap) + 28 * (b - a) <= DaysBeforeMonth(b, leap)
    decreases b - a
  {
    if a < b {
      DaysBeforeMonthMonotone(a, b - 1, leap);
    }
  }

  /** The days of a month in the given Gregorian year. */
  function DaysInMonth(year: int, month: int): (n: int)
    requires 1 <= month <= 12
    ensures month == 2 ==> (n == 29 <==> IsLeapYear(year))
  {
    MonthLength(month, IsLeapYear(year))
  }

  /** A naive `datetime.datetime` value. */
  datatype DateTime = DateTime(year: int, month: int, day: int,
                               hour: int, minute: int, second: int, microsecond: int)
  {
    /** The ranges `datetime` enforces on its fields. */
    predicate Valid() {
      && MinYear <= year <= MaxYear
      && 1 <= month <= 12
      && 1 <= day <= DaysInMonth(year, month)
      && 0 <= hour <= 23
      && 0 <= minute <= 59
      && 0 <= second <= 59
      && 0 <= microsecond <= 999999
    }

    /** `timetuple().tm_yday`: the ordinal day within the Gregorian year. */
    function DayOfYear(): (n: int)
      requires Valid()
      ensures 1 <= n <= (if IsLeapYear(year) then 366 else 365)
      ensures month == 1 ==> n == day
    {
      DaysBeforeMonthBound(month, IsLeapYear(year));
      DaysBeforeMonth(month, IsLeapYear(year)) + day
    }

    /** `replace(hour=h, minute=mi, second=s, microsecond=us)`: a new value with
        the same date and the given time of day; `datetime` rejects a field out
        of range, which the precondition excludes. */
    function Replace(h: int, mi: int, s: int, us: int): (r: DateTime)
      requires Valid()
      requires 0 <= h <= 23 && 0 <= mi <= 59 && 0 <= s <= 59 && 0 <= us <= 999999
      ensures r.Valid()
      ensures r.year == year && r.month == month && r.day == day
      ensures r.hour == h && r.minute == mi && r.second == s && r.microsecond == us
    {
      DateTime(year, month, day, h, mi, s, us)
    }
  }
}
