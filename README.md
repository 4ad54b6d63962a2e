# Sunrise and sunset calculator: the arithmetic skeleton in Dafny

The repository computes local sunrise and sunset with the Schlyter "sunrise
equation". It does this in two places:

- `sunrise_sunset.py` holds the `SunriseSunset` class. Its constructor
  validates a latitude, longitude and UTC offset, picks a zenith (civil by
  default) and strips the time of day from the date. Its `calculate` method
  runs the pipeline for sunrise (hour constant 6) and sunset (hour constant
  18). It brings angles and times into range with Python's float `%`.
- `sunset_sunrise.py` is a stand-alone script with fixed inputs. It computes
  the day of the year with a closed formula. It brings angles and times into
  range with a single correction by one period (`adjustAngle`, `adjustTime`).
  It leaves the minute unrounded.

This project models everything in that pipeline that is not trigonometry:

- the day-of-year computations;
- the two styles of normalisation;
- the right-ascension quadrant correction;
- the UT and local-time wrapping;
- the clock conversion;
- constructor validation and defaults;
- how `calculate` attaches the clock times to a date.

Each trigonometric result is taken as a real-valued function of its
argument. These are the fields of `Schlyter.Trig`, one per composition of
library calls the source makes, for example `math.degrees(math.atan(x))`.
`Schlyter.TrigRanges` states the ranges the library guarantees for them
(sine and cosine in [-1, 1], `atan` in [-90, 90] degrees, `acos` in
[0, 180] degrees, and `cos(asin(x))` in [0, 1]). From these ranges the model
proves that the script's single `adjustAngle` is enough for the true
longitude: its raw value always lies in [0, 720). The same is not proved
for `adjustTime`: the ranges do not keep T - lngHour within one day of
[0, 24) (see "## Left out").

Modules:

- `PyMath` (pymath.dfy): Python's float `x % m` (floored, result in [0, m)) and
  `int(x)` (truncation toward zero), over exact reals, with the lemmas that
  make `%` unique and compatible with adding offsets.
- `Calendar` (calendar.dfy): a hand-written record for the `datetime.datetime`
  values the code uses, with the ranges `datetime` enforces, `replace` of the
  time fields and the Gregorian `timetuple().tm_yday`.
- `Schlyter` (schlyter.dfy): the pipeline stages both files share, written once
  and parameterised by the event (`Rise` or `Set`): approximate time, mean
  anomaly, the raw true longitude and right ascension, the quadrant
  correction, the declination, the hour-angle cosine and its divisor, the
  hour angle and the local mean time. The approximate time, the mean
  anomaly, the raw true longitude and right ascension, the declination, the
  divisor of the hour-angle cosine and the hour angle each carry the range
  they have when the library functions keep theirs. The hour-angle cosine
  itself has no range. The local mean time is bounded by
  `SunriseSunsetClass.MeanTimeRange`.
- `SunsetSunriseScript` (sunset_sunrise.dfy): the script. It has `adjustAngle`,
  `adjustTime`, N1/N2/N3/N and its pipeline over an `Inputs` record that
  stands for the script's fixed inputs.
- `SunriseSunsetClass` (sunrise_sunset.dfy): the class. The constructor only assigns
  the fields once, so it is modelled as a validated record built by `New`,
  which returns either the record or the `ValueError` raised. `calculate` only
  reads the fields, so it is modelled as pure functions.
- `Agreement` (agreement.dfy): how the two files relate. Within one period,
  the single-wrap corrections compute `%`. The script's formula matches the
  Gregorian day of year except from March onward in years divisible by 100
  but not by 400. Under these conditions both files give the same local time
  and the same clock hour.

Details of the code that the model keeps as written:

- The class normalises with `%`, not with a single wrap.
- `calculate(date)` takes the day number from the stored date even when a
  `date` is passed. It keeps the `second` and `microsecond` of `date`, and
  replaces only hour and minute.
- The script's minute is `localT % 1 * 60`, not rounded down.
- When `math.acos` gets a value outside [-1, 1], Python raises its own
  domain error. There are no separate "never rises" or "never sets" errors.

## Model

| member | source | states |
|---|---|---|
| `PyMath.PyMod` | sunrise_sunset.py:99-104 | Python's float `x % m` for m > 0 lies in [0, m) and differs from x by a whole multiple of m |
| `PyMath.PyModUnique` | sunrise_sunset.py:54-55 | `x % m` is the only value in [0, m) that differs from x by a multiple of m |
| `PyMath.PyModAddOffset` | sunrise_sunset.py:103-104 | reducing before adding an offset does not change the final remainder: (x % m + b) % m == (x + b) % m |
| `PyMath.PyInt` | sunrise_sunset.py:107 | `int(x)` truncates toward zero: for x >= 0 it is the floor, for x < 0 the ceiling |
| `PyMath.PyModOneIsFraction` | sunrise_sunset.py:108 | for x >= 0, `x % 1` is exactly the part that `int(x)` cuts off |
| `Calendar.DateTime.DayOfYear` | sunrise_sunset.py:41 | `tm_yday` of a valid date is in 1..365, or 1..366 in a Gregorian leap year, and equals the day in January |
| `Calendar.DateTime.Replace` | sunrise_sunset.py:114-115 | `replace` of the time fields keeps year, month and day, sets exactly the given hour, minute, second and microsecond, and yields a valid datetime |
| `Calendar.DaysBeforeMonthLeapShift` | sunset_sunrise.py:37 | a 29-day February adds exactly one day before every month after February and none before March |
| `Schlyter.AlignQuadrant` | sunrise_sunset.py:62-69 | after the quadrant correction floor(RA/90) == floor(L/90), RA moved by a multiple of 90, lies within 90 of L, and stays in [0, 360) when L is in [0, 360) |
| `Schlyter.HourConstant` | sunrise_sunset.py:45-46 | definition only: the hour constant 6 for sunrise and 18 for sunset |
| `Schlyter.LngHour` | sunrise_sunset.py:44 | definition only: the longitude in hours, `longitude / 15` (also sunset_sunrise.py:41) |
| `Schlyter.Quadrant` | sunrise_sunset.py:63-64 | definition only: the quadrant `math.floor(x/90)` of an angle |
| `Schlyter.ApproxTime` | sunrise_sunset.py:44-46 | the approximate time t = N + (h - lngHour)/24, with h = 6 or 18; for a longitude within 12 hours of Greenwich it lies in [N - 0.25, N + 1.25] |
| `Schlyter.MeanAnomaly` | sunrise_sunset.py:49-50 | M = 0.9856 t - 3.289; for t in [0, 368] it lies in [-3.289, 360) |
| `Schlyter.RawTrueLongitude` | sunrise_sunset.py:54-55 | the raw true longitude M + 1.916 sin M + 0.020 sin 2M + 282.634; with the library's ranges it lies within 1.936 degrees of M + 282.634 |
| `Schlyter.RawTrueLongitudeWithinOneTurn` | sunset_sunrise.py:50-51 | for N in 1..366, a longitude in [-180, 180] and the library's ranges, the raw true longitude lies in [0, 720), within one turn of [0, 360) |
| `Schlyter.RawRightAscension` | sunrise_sunset.py:59-60 | the raw right ascension atan(0.91764 tan L) in degrees; with the library's ranges it lies in [-90, 90] |
| `Schlyter.SinDec` | sunrise_sunset.py:76 | sin δ = 0.39782 sin L; with the library's ranges it lies in [-0.39782, 0.39782], inside the domain of `asin` |
| `Schlyter.CosDec` | sunrise_sunset.py:77 | cos δ = cos(asin(sin δ)); with the library's ranges it lies in [0, 1] |
| `Schlyter.CosHDivisor` | sunrise_sunset.py:87-88 | the divisor cos δ · cos(latitude) of the hour-angle cosine; with the library's ranges it lies in [-1, 1] |
| `Schlyter.CosH` | sunrise_sunset.py:83-88 | definition only: (cos(zenith) - sin δ · sin(latitude)) / (cos δ · cos(latitude)), for a non-zero divisor |
| `Schlyter.HourAngleDefined` | sunrise_sunset.py:87-92 | definition only: the division is by a non-zero value and `acos` receives a value in [-1, 1], so neither raises |
| `Schlyter.HourAngle` | sunrise_sunset.py:91-92 | H = (360 - acos(cosH))/15 for sunrise and acos(cosH)/15 for sunset; with the library's ranges, sunrise's H is in [12, 24] and sunset's in [0, 12] |
| `Schlyter.LocalMeanTime` | sunrise_sunset.py:95-96 | definition only: T = H + RA/15 - 0.06571 t - 6.622 |
| `SunsetSunriseScript.AdjustAngle` | sunset_sunrise.py:18-23 | for L in [-360, 720) the result is in [0, 360) and differs from L by a multiple of 360; on [0, 360) it is the identity |
| `SunsetSunriseScript.AdjustAngleIdempotent` | sunset_sunrise.py:18-23 | on [-360, 720) applying `adjustAngle` twice equals applying it once |
| `SunsetSunriseScript.AdjustTime` | sunset_sunrise.py:25-30 | for x in [-24, 48) the result is in [0, 24) and differs from x by a multiple of 24; on [0, 24) it is the identity |
| `SunsetSunriseScript.AdjustTimeIdempotent` | sunset_sunrise.py:25-30 | on [-24, 48) applying `adjustTime` twice equals applying it once |
| `SunsetSunriseScript.N1` | sunset_sunrise.py:35 | N1 - 30 is the number of days before the month when February is counted as 30 days |
| `SunsetSunriseScript.N2` | sunset_sunrise.py:36 | N2 is 0 for January and February and 1 for March to December |
| `SunsetSunriseScript.N3` | sunset_sunrise.py:37 | N3 is 1 in a year divisible by 4 and 2 otherwise, for every integer year |
| `SunsetSunriseScript.DayOfYear` | sunset_sunrise.py:35-38 | definition only: N = N1 - N2 · N3 + day - 30; its meaning is stated by `DayOfYearIsCumulative` |
| `SunsetSunriseScript.DayOfYearIsCumulative` | sunset_sunrise.py:35-38 | N equals the summed lengths of the preceding months plus the day, with February of 29 days exactly when year % 4 == 0 |
| `SunsetSunriseScript.DayOfYearRange` | sunset_sunrise.py:35-38 | for a date valid under that leap rule, 1 <= N <= 365, or 366 when year % 4 == 0, and N == day in January |
| `SunsetSunriseScript.EventTime` | sunset_sunrise.py:41-43 | definition only: the approximate time from the script's N and the longitude |
| `SunsetSunriseScript.TrueLongitude` | sunset_sunrise.py:50-51 | definition only: `adjustAngle` of the raw true longitude; its range is stated by `TrueLongitudeInRange` |
| `SunsetSunriseScript.TrueLongitudeInRange` | sunset_sunrise.py:49-55 | for a date valid under the script's leap rule, a longitude in [-180, 180] and the library's ranges, L lies in [0, 360) a whole number of turns from the raw value, and the raw right ascension from it lies in [-90, 90] |
| `SunsetSunriseScript.RightAscension` | sunset_sunrise.py:54-64 | the corrected right ascension is in L's quadrant, and in [0, 360) whenever L is |
| `SunsetSunriseScript.Computable` | sunset_sunrise.py:77-83 | definition only: the hour-angle division and `acos` of the event succeed |
| `SunsetSunriseScript.RawUniversalTime` | sunset_sunrise.py:85-90 | definition only: T - lngHour before `adjustTime` |
| `SunsetSunriseScript.LocalTime` | sunset_sunrise.py:89-95 | definition only: `adjustTime(adjustTime(T - lngHour) + localOffset)`; its range is stated by `SunInDay` |
| `SunsetSunriseScript.Clock` | sunset_sunrise.py:98-101 | for localT in [0, 24) the hour int(localT) is in 0..23, the unrounded minute localT % 1 * 60 is in [0, 60), and hour + minute/60 gives back localT |
| `SunsetSunriseScript.Sun` | sunset_sunrise.py:98-101 | definition only: the script's clock conversion of the event's local time; its range is stated by `SunInDay` |
| `SunsetSunriseScript.SunInDay` | sunset_sunrise.py:89-101 | when T - lngHour is within one day of [0, 24) and the offset is in [-12, 14], local time is in [0, 24), the hour in 0..23 and the minute in [0, 60) |
| `SunriseSunsetClass.New` | sunrise_sunset.py:20-31 | construction fails with the latitude error iff latitude is outside [-90, 90], else with the longitude error iff longitude is outside [-180, 180], else with the offset error iff the offset is outside [-12, 14]; otherwise it stores the three values unchanged, the caller's zenith or 90.83333, and the date with hour, minute, second and microsecond zero |
| `SunriseSunsetClass.NewDefaults` | sunrise_sunset.py:13-31 | without optional arguments the offset is 0 and the zenith 90.83333; a given zenith is kept; the bounds ±90, ±180, -12 and 14 are accepted and latitude 90.0001 is rejected |
| `SunriseSunsetClass.DayNumber` | sunrise_sunset.py:41 | N, taken from the stored date, is an ordinal day in 1..366 |
| `SunriseSunsetClass.EventTime` | sunrise_sunset.py:43-46 | definition only: the approximate time from the stored date's day number and the longitude |
| `SunriseSunsetClass.TrueLongitude` | sunrise_sunset.py:52-55 | L after `% 360` lies in [0, 360) and is a whole number of turns from the raw true longitude |
| `SunriseSunsetClass.RightAscension` | sunrise_sunset.py:57-69 | for L in [0, 360), RA after `% 360` and the quadrant correction lies in [0, 360) and floor(RA/90) == floor(L/90) |
| `SunriseSunsetClass.Computable` | sunrise_sunset.py:82-92 | definition only: the hour-angle division and `acos` of the event succeed |
| `SunriseSunsetClass.MeanTime` | sunrise_sunset.py:94-96 | definition only: the local mean time T of the event from the class's L, RA and t |
| `SunriseSunsetClass.MeanTimeRange` | sunrise_sunset.py:90-96 | with the library's ranges, T lies in [h - 0.06571 t - 6.622, h + 36 - 0.06571 t - 6.622), where h is 12 for sunrise and 0 for sunset |
| `SunriseSunsetClass.UniversalTime` | sunrise_sunset.py:98-100 | UT lies in [0, 24) and is a whole number of days from T - lngHour |
| `SunriseSunsetClass.LocalTime` | sunrise_sunset.py:102-104 | local time lies in [0, 24) and is a whole number of days from UT + localOffset |
| `SunriseSunsetClass.Clock` | sunrise_sunset.py:106-110 | for localT in [0, 24) the hour is in 0..23 with hour <= localT < hour + 1, and the minute is in 0..59 and is the whole minutes of the fractional hour |
| `SunriseSunsetClass.CanCalculate` | sunrise_sunset.py:87-92 | definition only: both the sunrise and the sunset hour angle can be computed |
| `SunriseSunsetClass.EventDateTime` | sunrise_sunset.py:112-115 | the event's datetime is valid, has the date, second and microsecond of `date`, and the computed hour and minute |
| `SunriseSunsetClass.Calculate` | sunrise_sunset.py:35-116 | both results are valid datetimes on `date` (or on the stored date when none is given), keeping its second and microsecond, with the rise and set clock times of the stored date's day number |
| `SunriseSunsetClass.CalculateOnStoredDate` | sunrise_sunset.py:37-38 | on a constructed object with no date given, both results have the stored date's year, month and day, and zero seconds and microseconds |
| `SunriseSunsetClass.CalculateTimeIgnoresDate` | sunrise_sunset.py:41 | the hours and minutes returned do not depend on the `date` argument, because N always comes from the stored date |
| `SunriseSunsetClass.OffsetShift` | sunrise_sunset.py:102-104 | raising localOffset by 1, all else equal, keeps the event computable and moves its local time by +1 modulo 24 |
| `Agreement.AdjustAngleIsPyMod` | sunset_sunrise.py:18-23 | on [-360, 720) the single-wrap `adjustAngle` equals Python's `% 360` |
| `Agreement.AdjustTimeIsPyMod` | sunset_sunrise.py:25-30 | on [-24, 48) the single-wrap `adjustTime` equals Python's `% 24` |
| `Agreement.DayOfYearAgreesWithGregorian` | sunset_sunrise.py:35-38 | the formula's N equals the Gregorian `tm_yday` iff the month is January or February or the year is not divisible by 100 without being divisible by 400; otherwise N is one more |
| `Agreement.DayOfYearCenturyExample` | sunset_sunrise.py:35-38 | on 1 March 2100 the formula gives 61 where the Gregorian day of year is 60 |
| `Agreement.LocalTimesAgree` | sunset_sunrise.py:41-95 | for a constructed object and the same request to the script, when the day numbers agree, the library functions keep their ranges and T - lngHour is within one day of [0, 24), the script and the class compute the same true longitude and local time, and the script can compute the event |
| `Agreement.LocalTimesAgreeApplies` | sunset_sunrise.py:41-95 | the preconditions of `LocalTimesAgree` can all be met: for sunrise on 1 January at longitude 0, with stand-in library functions that keep the library's ranges, they hold and the two local times are equal |
| `Agreement.ClocksAgree` | sunset_sunrise.py:98-101 | for a time of day both clock conversions give the same hour, and the class's minute is the floor of the script's unrounded minute |

## Left out

- Trigonometry: `math.sin`, `cos`, `tan`, `atan`, `asin`, `acos`, `radians`
  and `degrees` are not modelled. Each composition the code makes is a real
  function, a field of `Schlyter.Trig`. Only the ranges of those functions
  are known (`Schlyter.TrigRanges`), and only the lemmas that assume them
  use them. The pinned reference output for 2014-01-01 at 46.805,
  -71.2316 depends on the exact values and is not stated.
- Floating point: all arithmetic is exact real arithmetic, with no rounding,
  NaN or infinity. One consequence: in floats, `x % m` for a tiny negative x
  can round to exactly m (for example `-1e-20 % 24` is `24.0`). `int` would
  then give hour 24 and `replace` would raise. Over the reals this cannot
  happen.
- The `math.acos` domain error and the division by zero in the hour-angle
  cosine are preconditions (`Schlyter.HourAngleDefined`, used by
  `Computable` and `CanCalculate`). They are not modelled as error results.
- `math.asin` in the declination cannot fail for a real sine, because
  0.39782 * sin(L) lies in [-0.39782, 0.39782]. Its oracle is total.
- The `datetime` library is replaced by `Calendar.DateTime`. It covers years
  1..9999 and the proleptic Gregorian calendar. Time zones (`tzinfo`) and
  `fold` are not modelled.
- Python 2 integer division: `self.longitude / 15` would floor if an integer
  longitude were passed under Python 2. The model uses true division, as the
  command-line entry point (which parses floats) sees it. The script's integer
  expressions give the same values under Python 2 and 3.
- `SunriseSunset` attribute reassignment after construction is not modelled:
  the object is an immutable record. `Calculate` requires only that the
  stored date is a valid datetime, plus `CanCalculate`.
- Determinism and idempotence of `calculate`: every function here is
  deterministic by construction, so no lemma states it.
- Command-line glue, `argparse`, `strptime`, `datetime.now()` and the prints
  are not modelled (sunrise_sunset.py:118-150, sunset_sunrise.py:102-103). The
  script's module-level inputs (sunset_sunrise.py:6-15) become
  `SunsetSunriseScript.Inputs`.
- SunsetSunriseScript.SunInDay, Agreement.LocalTimesAgree: both assume that
  T - lngHour lies in [-24, 48), within one day of [0, 24). The library's
  ranges alone do not give this bound: at longitude -180, sunrise's T - lngHour
  can reach about 53.3 hours. So the model does not prove that the script's
  single `adjustTime` always suffices.
