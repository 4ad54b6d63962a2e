/** The stages of the Schlyter sunrise equation that both calculator files
    share, with every trigonometric library call left to an oracle.

    Both files run the same pipeline twice, once for sunrise and once for
    sunset; the two runs differ only in the hour constant of the approximate
    time and in which side of the hour-angle circle is taken. Here the pipeline
    is written once, parameterised by the event. The files differ in how they
    bring angles and times back into range (a single wrap or Python's `%`),
    so that step is left to each of them. */
module Schlyter {

  import opened PyMath

  /** The trigonometric results the pipeline consumes, each exactly as the
      source composes the library calls. All angles are in degrees. */
  datatype Trig = Trig(
    sinDeg: real -> real,   // math.sin(math.radians(x))
    cosDeg: real -> real,   // math.cos(math.radians(x))
    tanDeg: real -> real,   // math.tan(math.radians(x))
    atanDeg: real -> real,  // math.degrees(math.atan(x))
    cosAsin: real -> real,  // math.cos(math.asin(x))
    acosDeg: real -> real   // math.degrees(math.acos(x))
  )

  /** The ranges the library guarantees: sine and cosine in [-1, 1], `atan` in
      [-90, 90] degrees, and on [-1, 1] `cos(asin(x))` in [0, 1] and `acos` in
      [0, 180] degrees. */
  ghost predicate TrigRanges(trig: Trig) {
    && (forall x :: -1.0 <= trig.sinDeg(x) <= 1.0)
    && (forall x :: -1.0 <= trig.cosDeg(x) <= 1.0)
    && (forall x :: -90.0 <= trig.atanDeg(x) <= 90.0)
    && (forall x :: -1.0 <= x <= 1.0 ==> 0.0 <= trig.cosAsin(x) <= 1.0)
    && (forall x :: -1.0 <= x <= 1.0 ==> 0.0 <= trig.acosDeg(x) <= 180.0)
  }

  datatype Event = Rise | Set

  /** The local hour the approximate time is centred on: 6 for sunrise, 18 for sunset. */
  function HourConstant(e: Event): real {
    match e
    case Rise => 6.0
    case Set => 18.0
  }

  /** Longitude converted to hours. */
  function LngHour(longitude: real): real {
    longitude / 15.0
  }

  /** The approximate time t of the event, in days since the start of the year:
      for a longitude within 12 hours of Greenwich, between a quarter day
      before day n begins and a quarter day after it ends. */
  function ApproxTime(n: int, lngHour: real, e: Event): (t: real)
    ensures -12.0 <= lngHour <= 12.0 ==> n as real - 0.25 <= t <= n as real + 1.25
  {
    n as real + (HourConstant(e) - lngHour) / 24.0
  }

  /** The Sun's mean anomaly M: for a time within the year it lies within one
      turn, just below 0 at the earliest. */
  function MeanAnomaly(t: real): (m: real)
    ensures 0.0 <= t <= 368.0 ==> -3.289 <= m < 360.0
  {
    0.9856 * t - 3.289
  }

  /** The Sun's true longitude L before it is brought into [0, 360): the mean
      anomaly advanced by 282.634 degrees, give or take the 1.936 degrees the
      two sine terms can add. */
  function RawTrueLongitude(trig: Trig, m: real): (l: real)
    ensures TrigRanges(trig) ==> m + 280.698 <= l <= m + 284.57
  {
    m + 1.916 * trig.sinDeg(m) + 0.020 * trig.sinDeg(2.0 * m) + 282.634
  }

  /** For a day of the year and a longitude on the globe, the raw true
      longitude lies in [0, 720): at most one turn above the range, which is
      why a single correction is enough to bring it into [0, 360). */
  lemma RawTrueLongitudeWithinOneTurn(trig: Trig, n: int, longitude: real, e: Event)
    requires TrigRanges(trig)
    requires 1 <= n <= 366 && -180.0 <= longitude <= 180.0
    ensures 0.0 <= RawTrueLongitude(trig, MeanAnomaly(ApproxTime(n, LngHour(longitude), e))) < 720.0
  {
    var t := ApproxTime(n, LngHour(longitude), e);
    assert 0.0 <= t <= 368.0;
    var m := MeanAnomaly(t);
    assert m + 280.698 <= RawTrueLongitude(trig, m) <= m + 284.57;
  }

  /** The Sun's right ascension before it is brought into [0, 360): an `atan`
      result, so within a quarter turn of 0. */
  function RawRightAscension(trig: Trig, l: real): (ra: real)
    ensures TrigRanges(trig) ==> -90.0 <= ra <= 90.0
  {
    trig.atanDeg(0.91764 * trig.tanDeg(l))
  }

  /** The 90-degree quadrant an angle lies in, `math.floor(x/90)`. */
  function Quadrant(x: real): int {
    (x / 90.0).Floor
  }

  /** Moves the right ascension ra into the quadrant of the true longitude l by
      adding the difference of their quadrant starts. */
  function AlignQuadrant(ra: real, l: real): (r: real)
    ensures Quadrant(r) == Quadrant(l)
    ensures MultipleOf(r - ra, 90.0)
    ensures l - 90.0 < r < l + 90.0
    ensures 0.0 <= l < 360.0 ==> 0.0 <= r < 360.0
  {
    var lq := (Quadrant(l) as real) * 90.0;
    var raq := (Quadrant(ra) as real) * 90.0;
    AlignQuadrantFacts(ra, l, Quadrant(l) - Quadrant(ra));
    ra + (lq - raq)
  }

  /** Shifting ra by k quadrants, where k is the quadrant difference, lands it
      in l's quadrant. */
  lemma AlignQuadrantFacts(ra: real, l: real, k: int)
    requires k == Quadrant(l) - Quadrant(ra)
    ensures Quadrant(ra + (k as real) * 90.0) == Quadrant(l)
    ensures MultipleOf((k as real) * 90.0, 90.0)
  {
    var r := ra + (k as real) * 90.0;
    assert r / 90.0 == ra / 90.0 + k as real;
    assert ((k as real) * 90.0) / 90.0 == k as real;
  }

  /** The sine of the Sun's declination, at most the sine of the obliquity
      0.39782 in size, so `asin` is always defined on it. */
  function SinDec(trig: Trig, l: real): (r: real)
    ensures TrigRanges(trig) ==> -0.39782 <= r <= 0.39782
  {
    0.39782 * trig.sinDeg(l)
  }

  /** The cosine of the Sun's declination, in [0, 1]. */
  function CosDec(trig: Trig, l: real): (r: real)
    ensures TrigRanges(trig) ==> 0.0 <= r <= 1.0
  {
    trig.cosAsin(SinDec(trig, l))
  }

  /** The divisor of the hour-angle cosine, a product of two cosines, in [-1, 1]. */
  function CosHDivisor(trig: Trig, latitude: real, l: real): (r: real)
    ensures TrigRanges(trig) ==> -1.0 <= r <= 1.0
  {
    UnitProduct(CosDec(trig, l), trig.cosDeg(latitude));
    CosDec(trig, l) * trig.cosDeg(latitude)
  }

  /** A factor in [0, 1] times a factor in [-1, 1] stays in [-1, 1]. */
  lemma UnitProduct(c: real, p: real)
    ensures 0.0 <= c <= 1.0 && -1.0 <= p <= 1.0 ==> -1.0 <= c * p <= 1.0
  {
    if 0.0 < c <= 1.0 && -1.0 <= p <= 1.0 {
      MulMonotone(c, p, 1.0);
      MulMonotone(c, -1.0, p);
      assert c * (-1.0) == -c;
      assert -c <= c * p;
      assert c * 1.0 == c;
      assert c * p <= c;
    }
  }

  /** The cosine of the Sun's local hour angle. */
  function CosH(trig: Trig, zenith: real, latitude: real, l: real): real
    requires CosHDivisor(trig, latitude, l) != 0.0
  {
    (trig.cosDeg(zenith) - SinDec(trig, l) * trig.sinDeg(latitude)) / CosHDivisor(trig, latitude, l)
  }

  /** The hour angle can be computed: the divisor is not zero and `math.acos`
      is given a value in its domain [-1, 1] (otherwise Python raises). */
  predicate HourAngleDefined(trig: Trig, zenith: real, latitude: real, l: real) {
    && CosHDivisor(trig, latitude, l) != 0.0
    && -1.0 <= CosH(trig, zenith, latitude, l) <= 1.0
  }

  /** The local hour angle H in hours: sunrise takes the side before the
      meridian (12 to 24 hours), sunset the side after it (0 to 12 hours). */
  function HourAngle(trig: Trig, e: Event, cosH: real): (h: real)
    requires -1.0 <= cosH <= 1.0
    ensures TrigRanges(trig) ==> match e
                                 case Rise => 12.0 <= h <= 24.0
                                 case Set => 0.0 <= h <= 12.0
  {
    match e
    case Rise => (360.0 - trig.acosDeg(cosH)) / 15.0
    case Set => trig.acosDeg(cosH) / 15.0
  }

  /** The local mean time T of the event, from the hour angle, the right
      ascension in hours and the approximate time. */
  function LocalMeanTime(h: real, raHours: real, t: real): real {
    h + raHours - 0.06571 * t - 6.622
  }
}
