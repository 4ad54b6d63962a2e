/** How the two versions of the calculator relate: the script's single-wrap
    corrections against the class's `%`, the script's day-of-year formula
    against the Gregorian `tm_yday`, and, where both hold, the two local
    times of an event. */
module Agreement {

  import opened PyMath
  import opened Calendar
  import opened Schlyter
  import SS = SunsetSunriseScript
  import SR = SunriseSunsetClass

  /** Within one turn of [0, 360), `adjustAngle` computes `% 360`. */
  lemma AdjustAngleIsPyMod(x: real)
    requires -360.0 <= x < 720.0
    ensures SS.AdjustAngle(x) == PyMod(x, 360.0)
  {
    PyModUnique(x, 360.0, SS.AdjustAngle(x));
  }

  /** Within one day of [0, 24), `adjustTime` computes `% 24`. */
  lemma AdjustTimeIsPyMod(x: real)
    requires -24.0 <= x < 48.0
    ensures SS.AdjustTime(x) == PyMod(x, 24.0)
  {
    PyModUnique(x, 24.0, SS.AdjustTime(x));
  }

  /** The years in which the Julian leap rule of the formula and the Gregorian
      rule of `datetime` disagree. */
  predicate CenturyNonLeap(year: int) {
    year % 100 == 0 && year % 400 != 0
  }

  /** The script's N equals the Gregorian day of the year exactly when the
      month is January or February or the two leap rules agree; otherwise it
      is one day ahead. */
  lemma DayOfYearAgreesWithGregorian(dt: DateTime)
    requires dt.Valid()
    ensures (SS.DayOfYear(dt.day, dt.month, dt.year) == dt.DayOfYear())
            <==> (dt.month <= 2 || !CenturyNonLeap(dt.year))
    ensures (SS.DayOfYear(dt.day, dt.month, dt.year) != dt.DayOfYear())
            ==> (SS.DayOfYear(dt.day, dt.month, dt.year) == dt.DayOfYear() + 1)
  {
    SS.DayOfYearIsCumulative(dt.day, dt.month, dt.year);
    DaysBeforeMonthLeapShift(dt.month);
  }

  /** 1 March 2100: the formula counts 29 February 2100, which the Gregorian
      calendar does not have, so N is 61 where `tm_yday` is 60. */
  lemma DayOfYearCenturyExample()
    ensures SS.DayOfYear(1, 3, 2100) == 61
    ensures DateTime(2100, 3, 1, 0, 0, 0, 0).Valid()
    ensures DateTime(2100, 3, 1, 0, 0, 0, 0).DayOfYear() == 60
  {
    DayOfYearAgreesWithGregorian(DateTime(2100, 3, 1, 0, 0, 0, 0));
    SS.DayOfYearIsCumulative(1, 3, 2100);
  }

  /** The script's inputs for the same date, place, zenith and offset as s. */
  predicate SameRequest(inp: SS.Inputs, s: SR.SunriseSunset) {
    && inp.day == s.dt.day && inp.month == s.dt.month && inp.year == s.dt.year
    && inp.latitude == s.latitude && inp.longitude == s.longitude
    && inp.zenith == s.zenith && inp.localOffset == s.localOffset
  }

  /** For a constructed object and the same request to the script: when the
      day numbers agree, the library functions keep their ranges and T - lngHour
      is within one day of [0, 24), the script and the class compute the same
      true longitude, can both compute the event, and give the same local time. */
  lemma {:induction false} LocalTimesAgree(inp: SS.Inputs, s: SR.SunriseSunset, e: Event, trig: Trig)
    requires s.Valid() && SameRequest(inp, s)
    requires s.dt.month <= 2 || !CenturyNonLeap(s.dt.year)
    requires TrigRanges(trig)
    requires SR.Computable(s, e, trig)
    requires -24.0 <= SR.MeanTime(s, e, trig) - LngHour(s.longitude) < 48.0
    ensures inp.HasMonth() && SS.TrueLongitude(inp, e, trig) == SR.TrueLongitude(s, e, trig)
    ensures SS.Computable(inp, e, trig)
    ensures SS.LocalTime(inp, e, trig) == SR.LocalTime(s, e, trig)
  {
    DayOfYearAgreesWithGregorian(s.dt);
    assert SS.EventTime(inp, e) == SR.EventTime(s, e);
    RawTrueLongitudeWithinOneTurn(trig, SR.DayNumber(s), s.longitude, e);
    var l := SR.TrueLongitude(s, e, trig);
    AdjustAngleIsPyMod(RawTrueLongitude(trig, MeanAnomaly(SR.EventTime(s, e))));
    assert SS.TrueLongitude(inp, e, trig) == l;
    AdjustAngleIsPyMod(RawRightAscension(trig, l));
    assert SS.RightAscension(trig, l) == SR.RightAscension(trig, l);
    assert SS.RawUniversalTime(inp, e, trig) == SR.MeanTime(s, e, trig) - LngHour(s.longitude);
    AdjustTimeIsPyMod(SS.RawUniversalTime(inp, e, trig));
    var ut := SR.UniversalTime(s, e, trig);
    AdjustTimeIsPyMod(ut + s.localOffset);
  }

  /** For a time of day both clock conversions give the same hour, and the
      class's whole minute is the script's unrounded minute rounded down. */
  lemma ClocksAgree(localT: real)
    requires 0.0 <= localT < 24.0
    ensures SR.Clock(localT).0 == SS.Clock(localT).0
    ensures SR.Clock(localT).1 == SS.Clock(localT).1.Floor
  {
    PyModOneIsFraction(localT);
  }

  /** Stand-ins that keep the library's ranges, with sine, tangent and
      arctangent 0, cosine and cos(asin(x)) 1 and `acos` 90 degrees, make the
      hour angle computable for every zenith, latitude and longitude L. */
  lemma FlatHourAngleDefined(trig: Trig, zenith: real, latitude: real, l: real)
    requires forall x :: trig.sinDeg(x) == 0.0 && trig.cosDeg(x) == 1.0 && trig.atanDeg(x) == 0.0
    requires forall x :: trig.cosAsin(x) == 1.0 && trig.acosDeg(x) == 90.0
    ensures TrigRanges(trig)
    ensures HourAngleDefined(trig, zenith, latitude, l)
  {}

  /** `LocalTimesAgree` applies: for sunrise on 1 January at longitude 0 with
      those stand-ins, every precondition holds, so the script and the class
      give the same local time. */
  lemma LocalTimesAgreeApplies(inp: SS.Inputs, s: SR.SunriseSunset, trig: Trig)
    requires s.Valid() && s.dt.month == 1 && s.dt.day == 1 && s.longitude == 0.0
    requires SameRequest(inp, s)
    requires forall x :: trig.sinDeg(x) == 0.0 && trig.cosDeg(x) == 1.0 && trig.atanDeg(x) == 0.0
    requires forall x :: trig.cosAsin(x) == 1.0 && trig.acosDeg(x) == 90.0
    ensures TrigRanges(trig)
    ensures && SR.Computable(s, Rise, trig)
            && -24.0 <= SR.MeanTime(s, Rise, trig) - LngHour(s.longitude) < 48.0
    ensures inp.HasMonth() && SS.Computable(inp, Rise, trig)
    ensures SS.LocalTime(inp, Rise, trig) == SR.LocalTime(s, Rise, trig)
  {
    FlatHourAngleDefined(trig, s.zenith, s.latitude, SR.TrueLongitude(s, Rise, trig));
    assert SR.EventTime(s, Rise) == 1.25;
    SR.MeanTimeRange(s, Rise, trig);
    LocalTimesAgree(inp, s, Rise, trig);
  }
}
