/** The stand-alone script version of the calculator: the day of the year from
    a closed formula that follows the Julian leap rule, single-wrap angle and
    time corrections, and a clock conversion that keeps the minute unrounded.
    The script's fixed inputs (date, location, zenith, offset) become the
    fields of `Inputs`. */
module SunsetSunriseScript {

  import opened PyMath
  import opened Calendar
  import opened Schlyter

  /** `adjustAngle`: one correction by a full turn toward [0, 360). */
  function AdjustAngle(l: real): (r: real)
    ensures -360.0 <= l < 720.0 ==> 0.0 <= r < 360.0 && MultipleOf(l - r, 360.0)
    ensures 0.0 <= l < 360.0 ==> r == l
  {
    if l < 0.0 then l + 360.0
    else if l >= 360.0 then l - 360.0
    else l
  }

  /** Within one turn of the target range, applying `adjustAngle` again changes nothing. */
  lemma AdjustAngleIdempotent(l: real)
    requires -360.0 <= l < 720.0
    ensures AdjustAngle(AdjustAngle(l)) == AdjustAngle(l)
  {}

  /** `adjustTime`: one correction by a full day toward [0, 24). */
  function AdjustTime(x: real): (r: real)
    ensures -24.0 <= x < 48.0 ==> 0.0 <= r < 24.0 && MultipleOf(x - r, 24.0)
    ensures 0.0 <= x < 24.0 ==> r == x
  {
    if x < 0.0 then x + 24.0
    else if x >= 24.0 then x - 24.0
    else x
  }

  /** Within one day of the target range, applying `adjustTime` again changes nothing. */
  lemma AdjustTimeIdempotent(x: real)
    requires -24.0 <= x < 48.0
    ensures AdjustTime(AdjustTime(x)) == AdjustTime(x)
  {}

  // The day of the year, computed as N = N1 - N2 * N3 + day - 30. Python's
  // `math.floor` of a quotient by a positive constant is Dafny's integer `/`.

  /** N1 - 30 counts the days before the month as if February had 30 days. */
  function N1(month: int): (r: int)
    ensures 1 <= month <= 12 ==> r - 30 == DaysBeforeMonth(month, false) + (if month > 2 then 2 else 0)
  {
    (275 * month) / 9
  }

  /** N2 tells whether the month comes after February. */
  function N2(month: int): (r: int)
    requires 1 <= month <= 12
    ensures r == if month <= 2 then 0 else 1
  {
    (month + 9) / 12
  }

  /** N3 tells whether February is short: 1 in a year divisible by 4, 2 otherwise. */
  function N3(year: int): (r: int)
    ensures r == if year % 4 == 0 then 1 else 2
  {
    1 + (year - 4 * (year / 4) + 2) / 3
  }

  /** The script's ordinal day N of the date (day, month, year). */
  function DayOfYear(day: int, month: int, year: int): int
    requires 1 <= month <= 12
  {
    N1(month) - N2(month) * N3(year) + day - 30
  }

  /** The formula counts the days of the months before `month`, with a
      February of 29 days exactly in years divisible by 4, plus the day. */
  lemma DayOfYearIsCumulative(day: int, month: int, year: int)
    requires 1 <= month <= 12
    ensures DayOfYear(day, month, year) == DaysBeforeMonth(month, year % 4 == 0) + day
  {
    DaysBeforeMonthLeapShift(month);
  }

  /** For a date valid under that leap rule, N is an ordinal day of a year of
      365 days, or 366 when the year is divisible by 4; in January N is the day. */
  lemma DayOfYearRange(day: int, month: int, year: int)
    requires 1 <= month <= 12 && 1 <= day <= MonthLength(month, year % 4 == 0)
    ensures 1 <= DayOfYear(day, month, year) <= (if year % 4 == 0 then 366 else 365)
    ensures month == 1 ==> DayOfYear(day, month, year) == day
  {
    DayOfYearIsCumulative(day, month, year);
    DaysBeforeMonthBound(month, year % 4 == 0);
  }

  /** The script's inputs. */
  datatype Inputs = Inputs(day: int, month: int, year: int,
                           latitude: real, longitude: real,
                           zenith: real, localOffset: real)
  {
    predicate HasMonth() { 1 <= month <= 12 }
  }

  /** The approximate time t of the event. */
  function EventTime(inp: Inputs, e: Event): real
    requires inp.HasMonth()
  {
    ApproxTime(DayOfYear(inp.day, inp.month, inp.year), LngHour(inp.longitude), e)
  }

  /** The Sun's true longitude L after `adjustAngle`. */
  function TrueLongitude(inp: Inputs, e: Event, trig: Trig): real
    requires inp.HasMonth()
  {
    AdjustAngle(RawTrueLongitude(trig, MeanAnomaly(EventTime(inp, e))))
  }

  /** With the library's ranges, a date valid under the script's leap rule and
      a longitude on the globe, the single `adjustAngle` is enough: L ends in
      [0, 360), a whole number of turns from the raw value, and the raw right
      ascension computed from it is within a quarter turn of 0. */
  lemma TrueLongitudeInRange(inp: Inputs, e: Event, trig: Trig)
    requires TrigRanges(trig)
    requires inp.HasMonth() && 1 <= inp.day <= MonthLength(inp.month, inp.year % 4 == 0)
    requires -180.0 <= inp.longitude <= 180.0
    ensures 0.0 <= TrueLongitude(inp, e, trig) < 360.0
    ensures MultipleOf(RawTrueLongitude(trig, MeanAnomaly(EventTime(inp, e))) - TrueLongitude(inp, e, trig), 360.0)
    ensures -90.0 <= RawRightAscension(trig, TrueLongitude(inp, e, trig)) <= 90.0
  {
    DayOfYearRange(inp.day, inp.month, inp.year);
    RawTrueLongitudeWithinOneTurn(trig, DayOfYear(inp.day, inp.month, inp.year), inp.longitude, e);
  }

  /** The Sun's right ascension after `adjustAngle` and the quadrant correction,
      in degrees: always in the quadrant of l, and in [0, 360) when l is. */
  function RightAscension(trig: Trig, l: real): (r: real)
    ensures Quadrant(r) == Quadrant(l)
    ensures 0.0 <= l < 360.0 ==> 0.0 <= r < 360.0
  {
    AlignQuadrant(AdjustAngle(RawRightAscension(trig, l)), l)
  }

  /** The Python calls that can fail (the division and `math.acos`) succeed. */
  predicate Computable(inp: Inputs, e: Event, trig: Trig)
    requires inp.HasMonth()
  {
    HourAngleDefined(trig, inp.zenith, inp.latitude, TrueLongitude(inp, e, trig))
  }

  /** T - lngHour, the universal time before `adjustTime`. */
  function RawUniversalTime(inp: Inputs, e: Event, trig: Trig): real
    requires inp.HasMonth() && Computable(inp, e, trig)
  {
    var l := TrueLongitude(inp, e, trig);
    var h := HourAngle(trig, e, CosH(trig, inp.zenith, inp.latitude, l));
    LocalMeanTime(h, RightAscension(trig, l) / 15.0, EventTime(inp, e)) - LngHour(inp.longitude)
  }

  /** Local time of the event: `adjustTime(adjustTime(T - lngHour) + localOffset)`. */
  function LocalTime(inp: Inputs, e: Event, trig: Trig): real
    requires inp.HasMonth() && Computable(inp, e, trig)
  {
    AdjustTime(AdjustTime(RawUniversalTime(inp, e, trig)) + inp.localOffset)
  }

  /** The script's clock conversion: h = int(localT), m = localT % 1 * 60.
      For a time of day, h is the hour and m the unrounded minute, and together
      they give back the time exactly. */
  function Clock(localT: real): (r: (int, real))
    ensures 0.0 <= localT < 24.0 ==> 0 <= r.0 <= 23 && 0.0 <= r.1 < 60.0
    ensures 0.0 <= localT < 24.0 ==> r.0 as real + r.1 / 60.0 == localT
  {
    PyModOneIsFraction(localT);
    (PyInt(localT), PyMod(localT, 1.0) * 60.0)
  }

  /** The hour and minute the script prints for the event. */
  function Sun(inp: Inputs, e: Event, trig: Trig): (int, real)
    requires inp.HasMonth() && Computable(inp, e, trig)
  {
    Clock(LocalTime(inp, e, trig))
  }

  /** If T - lngHour is within one day of [0, 24) and the offset is a valid
      one, both single-wrap corrections land in [0, 24), so the printed hour is
      0..23 and the minute lies in [0, 60). */
  lemma SunInDay(inp: Inputs, e: Event, trig: Trig)
    requires inp.HasMonth() && Computable(inp, e, trig)
    requires -24.0 <= RawUniversalTime(inp, e, trig) < 48.0
    requires -12.0 <= inp.localOffset <= 14.0
    ensures 0.0 <= LocalTime(inp, e, trig) < 24.0
    ensures 0 <= Sun(inp, e, trig).0 <= 23 && 0.0 <= Sun(inp, e, trig).1 < 60.0
  {}
}
