/** The `SunriseSunset` class: a location, UTC offset, zenith and date checked
    once when the object is made, and `calculate`, which turns them into the
    local sunrise and sunset clock times. The constructor only assigns the
    fields once, so the object is a validated record here; `calculate` only
    reads it and is a chain of pure functions. Angles and times are brought
    into range with Python's float `%`. */
module SunriseSunsetClass {

  import opened PyMath
  import opened Calendar
  import opened Schlyter

  /** The default zenith, civil twilight. */
  const CivilZenith: real := 90.83333

  /** The `ValueError`s the constructor raises, one per message. */
  datatype ValueError = InvalidLatitude | InvalidLongitude | InvalidLocalOffset

  datatype Result<T> = Ok(value: T) | Err(error: ValueError)

  datatype Option<T> = None | Some(value: T)

  /** The fields of a constructed `SunriseSunset`. */
  datatype SunriseSunset = SunriseSunset(dt: DateTime, latitude: real, longitude: real,
                                         localOffset: real, zenith: real)
  {
    /** What the constructor establishes. */
    predicate Valid() {
      && dt.Valid()
      && dt.hour == 0 && dt.minute == 0 && dt.second == 0 && dt.microsecond == 0
      && -90.0 <= latitude <= 90.0
      && -180.0 <= longitude <= 180.0
      && -12.0 <= localOffset <= 14.0
    }
  }

  /** `SunriseSunset(dt, latitude, longitude, localOffset=0, zenith=None)`:
      strips the time of day from dt, rejects a latitude, longitude or offset
      outside its inclusive range (checked in that order), and otherwise stores
      the values unchanged, with the civil zenith when none is given. */
  function New(dt: DateTime, latitude: real, longitude: real,
               localOffset: real := 0.0, zenith: Option<real> := None): (r: Result<SunriseSunset>)
    requires dt.Valid()
    ensures r == Err(InvalidLatitude) <==> latitude < -90.0 || latitude > 90.0
    ensures r == Err(InvalidLongitude) <==>
              -90.0 <= latitude <= 90.0 && (longitude < -180.0 || longitude > 180.0)
    ensures r == Err(InvalidLocalOffset) <==>
              -90.0 <= latitude <= 90.0 && -180.0 <= longitude <= 180.0
              && (localOffset < -12.0 || localOffset > 14.0)
    ensures r.Ok? ==> r.value.Valid()
    ensures r.Ok? ==> && r.value.latitude == latitude && r.value.longitude == longitude
                      && r.value.localOffset == localOffset
    ensures r.Ok? ==> r.value.zenith == (if zenith.Some? then zenith.value else CivilZenith)
    ensures r.Ok? ==> && r.value.dt.year == dt.year && r.value.dt.month == dt.month
                      && r.value.dt.day == dt.day
  {
    var stripped := dt.Replace(0, 0, 0, 0);
    if latitude < -90.0 || latitude > 90.0 then Err(InvalidLatitude)
    else if longitude < -180.0 || longitude > 180.0 then Err(InvalidLongitude)
    else if localOffset < -12.0 || localOffset > 14.0 then Err(InvalidLocalOffset)
    else Ok(SunriseSunset(stripped, latitude, longitude, localOffset,
                          if zenith.Some? then zenith.value else CivilZenith))
  }

  /** Without the optional arguments the offset is 0 and the zenith is the
      civil one; the inclusive bounds themselves are accepted and a latitude
      just beyond them is not. */
  lemma NewDefaults(dt: DateTime)
    requires dt.Valid()
    ensures New(dt, 0.0, 0.0).Ok?
    ensures New(dt, 0.0, 0.0).value.localOffset == 0.0
    ensures New(dt, 0.0, 0.0).value.zenith == CivilZenith
    ensures New(dt, 0.0, 0.0, 0.0, Some(96.0)).value.zenith == 96.0
    ensures New(dt, 90.0, 180.0, 14.0).Ok? && New(dt, -90.0, -180.0, -12.0).Ok?
    ensures New(dt, 90.0001, 0.0) == Err(InvalidLatitude)
  {}

  /** N, the day of the year, always of the stored date. */
  function DayNumber(s: SunriseSunset): (n: int)
    requires s.dt.Valid()
    ensures 1 <= n <= 366
  {
    s.dt.DayOfYear()
  }

  /** The approximate time t of the event. */
  function EventTime(s: SunriseSunset, e: Event): real
    requires s.dt.Valid()
  {
    ApproxTime(DayNumber(s), LngHour(s.longitude), e)
  }

  /** The Sun's true longitude L, `% 360`: in [0, 360), a whole number of turns
      away from the raw value. */
  function TrueLongitude(s: SunriseSunset, e: Event, trig: Trig): (l: real)
    requires s.dt.Valid()
    ensures 0.0 <= l < 360.0
    ensures MultipleOf(RawTrueLongitude(trig, MeanAnomaly(EventTime(s, e))) - l, 360.0)
  {
    PyMod(RawTrueLongitude(trig, MeanAnomaly(EventTime(s, e))), 360.0)
  }

  /** The Sun's right ascension in degrees, `% 360` and then moved into the
      quadrant of l: for l in [0, 360) it stays in [0, 360) and shares l's quadrant. */
  function RightAscension(trig: Trig, l: real): (ra: real)
    requires 0.0 <= l < 360.0
    ensures 0.0 <= ra < 360.0
    ensures Quadrant(ra) == Quadrant(l)
  {
    AlignQuadrant(PyMod(RawRightAscension(trig, l), 360.0), l)
  }

  /** The Python calls that can fail for the event (the division and
      `math.acos`) succeed. */
  predicate Computable(s: SunriseSunset, e: Event, trig: Trig)
    requires s.dt.Valid()
  {
    HourAngleDefined(trig, s.zenith, s.latitude, TrueLongitude(s, e, trig))
  }

  /** The local mean time T of the event. */
  function MeanTime(s: SunriseSunset, e: Event, trig: Trig): real
    requires s.dt.Valid() && Computable(s, e, trig)
  {
    var l := TrueLongitude(s, e, trig);
    var h := HourAngle(trig, e, CosH(trig, s.zenith, s.latitude, l));
    LocalMeanTime(h, RightAscension(trig, l) / 15.0, EventTime(s, e))
  }

  /** With the library's ranges, T is the hour angle (12 to 24 hours for
      sunrise, 0 to 12 for sunset) plus a right ascension of 0 to 24 hours,
      less 0.06571 t + 6.622. */
  lemma MeanTimeRange(s: SunriseSunset, e: Event, trig: Trig)
    requires s.dt.Valid() && TrigRanges(trig) && Computable(s, e, trig)
    ensures var low := (if e == Rise then 12.0 else 0.0) - 0.06571 * EventTime(s, e) - 6.622;
            low <= MeanTime(s, e, trig) < low + 36.0
  {}

  /** UT, `(T - lngHour) % 24`: a time of day a whole number of days from T - lngHour. */
  function UniversalTime(s: SunriseSunset, e: Event, trig: Trig): (ut: real)
    requires s.dt.Valid() && Computable(s, e, trig)
    ensures 0.0 <= ut < 24.0
    ensures MultipleOf(MeanTime(s, e, trig) - LngHour(s.longitude) - ut, 24.0)
  {
    PyMod(MeanTime(s, e, trig) - LngHour(s.longitude), 24.0)
  }

  /** Local time, `(UT + localOffset) % 24`: a time of day a whole number of
      days from UT + localOffset. */
  function LocalTime(s: SunriseSunset, e: Event, trig: Trig): (lt: real)
    requires s.dt.Valid() && Computable(s, e, trig)
    ensures 0.0 <= lt < 24.0
    ensures MultipleOf(UniversalTime(s, e, trig) + s.localOffset - lt, 24.0)
  {
    PyMod(UniversalTime(s, e, trig) + s.localOffset, 24.0)
  }

  /** `int(localT)` and `int(localT % 1 * 60)`: for a time of day, the hour and
      the whole minutes past it. */
  function Clock(localT: real): (r: (int, int))
    requires 0.0 <= localT < 24.0
    ensures 0 <= r.0 <= 23 && 0 <= r.1 <= 59
    ensures r.0 as real <= localT < r.0 as real + 1.0
    ensures r.1 as real <= (localT - r.0 as real) * 60.0 < r.1 as real + 1.0
  {
    PyModOneIsFraction(localT);
    (PyInt(localT), PyInt(PyMod(localT, 1.0) * 60.0))
  }

  /** Both events can be computed. */
  predicate CanCalculate(s: SunriseSunset, trig: Trig)
    requires s.dt.Valid()
  {
    Computable(s, Rise, trig) && Computable(s, Set, trig)
  }

  /** The moment of one event: the clock time attached to `date` by
      `date.replace(hour=h, minute=m)`. */
  function EventDateTime(s: SunriseSunset, e: Event, date: DateTime, trig: Trig): (r: DateTime)
    requires s.dt.Valid() && date.Valid() && Computable(s, e, trig)
    ensures r.Valid()
    ensures r.year == date.year && r.month == date.month && r.day == date.day
    ensures r.second == date.second && r.microsecond == date.microsecond
    ensures (r.hour, r.minute) == Clock(LocalTime(s, e, trig))
  {
    var c := Clock(LocalTime(s, e, trig));
    date.Replace(c.0, c.1, date.second, date.microsecond)
  }

  /** `calculate(date=None)`: sunrise and sunset as moments on `date`, or on
      the stored date when none is given. Only hour and minute are replaced;
      the day number always comes from the stored date. */
  function Calculate(s: SunriseSunset, date: Option<DateTime>, trig: Trig): (r: (DateTime, DateTime))
    requires s.dt.Valid() && (date.Some? ==> date.value.Valid()) && CanCalculate(s, trig)
    ensures r.0.Valid() && r.1.Valid()
    ensures var d := if date.Some? then date.value else s.dt;
            && r.0.year == d.year && r.0.month == d.month && r.0.day == d.day
            && r.1.year == d.year && r.1.month == d.month && r.1.day == d.day
            && r.0.second == d.second && r.0.microsecond == d.microsecond
            && r.1.second == d.second && r.1.microsecond == d.microsecond
    ensures (r.0.hour, r.0.minute) == Clock(LocalTime(s, Rise, trig))
    ensures (r.1.hour, r.1.minute) == Clock(LocalTime(s, Set, trig))
  {
    var d := if date.Some? then date.value else s.dt;
    (EventDateTime(s, Rise, d, trig), EventDateTime(s, Set, d, trig))
  }

  /** On a constructed object with no date given, both results are on the
      stored date at whole minutes: seconds and microseconds are zero. */
  lemma CalculateOnStoredDate(s: SunriseSunset, trig: Trig)
    requires s.Valid() && CanCalculate(s, trig)
    ensures var r := Calculate(s, None, trig);
            && r.0.second == 0 && r.0.microsecond == 0
            && r.1.second == 0 && r.1.microsecond == 0
            && r.0.year == s.dt.year && r.0.month == s.dt.month && r.0.day == s.dt.day
            && r.1.year == s.dt.year && r.1.month == s.dt.month && r.1.day == s.dt.day
  {}

  /** The date argument only supplies the calendar date of the results: their
      hours and minutes are the same whatever date is passed. */
  lemma CalculateTimeIgnoresDate(s: SunriseSunset, d1: DateTime, d2: DateTime, trig: Trig)
    requires s.dt.Valid() && d1.Valid() && d2.Valid() && CanCalculate(s, trig)
    ensures Calculate(s, Some(d1), trig).0.hour == Calculate(s, Some(d2), trig).0.hour
    ensures Calculate(s, Some(d1), trig).0.minute == Calculate(s, Some(d2), trig).0.minute
    ensures Calculate(s, Some(d1), trig).1.hour == Calculate(s, Some(d2), trig).1.hour
    ensures Calculate(s, Some(d1), trig).1.minute == Calculate(s, Some(d2), trig).1.minute
  {}

  /** Raising the UTC offset by one hour, all else equal, moves the local time
      of the event by one hour modulo 24. */
  lemma {:induction false} OffsetShift(s: SunriseSunset, e: Event, trig: Trig)
    requires s.dt.Valid() && Computable(s, e, trig)
    ensures var s' := s.(localOffset := s.localOffset + 1.0);
            Computable(s', e, trig) &&
            LocalTime(s', e, trig) == PyMod(LocalTime(s, e, trig) + 1.0, 24.0)
  {
    var s' := s.(localOffset := s.localOffset + 1.0);
    assert TrueLongitude(s', e, trig) == TrueLongitude(s, e, trig);
    assert UniversalTime(s', e, trig) == UniversalTime(s, e, trig);
    var ut := UniversalTime(s, e, trig);
    PyModAddOffset(ut + s.localOffset, 1.0, 24.0);
    assert ut + s.localOffset + 1.0 == ut + s'.localOffset;
  }
}
