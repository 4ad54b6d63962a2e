/** Python's numeric operators that the calculator relies on, over exact reals:
    the float remainder `x % m` (floored, so that the result has the sign of m)
    and the conversion `int(x)` (truncation toward zero). */
module PyMath {

  /** d is an integer multiple of m. */
  predicate MultipleOf(d: real, m: real)
    requires m > 0.0
  {
    (d / m).Floor as real == d / m
  }

  /** Python's `x % m` on floats, for a positive modulus m. */
  function PyMod(x: real, m: real): (r: real)
    requires m > 0.0
    ensures 0.0 <= r < m
    ensures MultipleOf(x - r, m)
  {
    var f := (x / m).Floor;
    PyModBounds(x, m, f);
    x - m * (f as real)
  }

  /** The facts behind `PyMod`: with f = floor(x/m), x - m*f lies in [0, m)
      and x minus it is f periods. */
  lemma PyModBounds(x: real, m: real, f: int)
    requires m > 0.0 && f == (x / m).Floor
    ensures 0.0 <= x - m * (f as real) < m
    ensures MultipleOf(x - (x - m * (f as real)), m)
  {
    var q := x / m;
    DivCancel(x, m);
    MulMonotone(m, f as real, q);
    MulStrict(m, q, f as real + 1.0);
    assert m * (f as real + 1.0) == m * (f as real) + m;
    assert x - (x - m * (f as real)) == (f as real) * m;
    PeriodsDiv(m, f);
  }

  lemma DivCancel(x: real, m: real)
    requires m > 0.0
    ensures m * (x / m) == x
  {}

  lemma MulMonotone(m: real, a: real, b: real)
    requires m > 0.0 && a <= b
    ensures m * a <= m * b
  {}

  lemma MulStrict(m: real, a: real, b: real)
    requires m > 0.0 && a < b
    ensures m * a < m * b
  {}

  lemma PeriodsDiv(m: real, k: int)
    requires m > 0.0
    ensures ((k as real) * m) / m == k as real
  {}

  /** Python's `int(x)` on a float: truncation toward zero. */
  function PyInt(x: real): (r: int)
    ensures 0.0 <= x ==> 0 <= r && r as real <= x < r as real + 1.0
    ensures x < 0.0 ==> r <= 0 && r as real - 1.0 < x <= r as real
  {
    if x >= 0.0 then x.Floor else -((-x).Floor)
  }

  /** The difference of two multiples of m is a multiple of m. */
  lemma MultipleOfSub(a: real, b: real, m: real)
    requires m > 0.0 && MultipleOf(a, m) && MultipleOf(b, m)
    ensures MultipleOf(a - b, m)
  {
    assert (a - b) / m == a / m - b / m;
    var ka, kb := (a / m).Floor, (b / m).Floor;
    assert (a - b) / m == (ka - kb) as real;
  }

  /** A multiple of m strictly between -m and m is zero. */
  lemma MultipleOfSmall(d: real, m: real)
    requires m > 0.0 && MultipleOf(d, m) && -m < d < m
    ensures d == 0.0
  {
    var q := d / m;
    DivCancel(d, m);
    assert q < 1.0 by {
      if q >= 1.0 { MulMonotone(m, 1.0, q); }
    }
    assert -1.0 < q by {
      if q <= -1.0 { MulMonotone(m, q, -1.0); }
    }
  }

  /** `x % m` is the only value in [0, m) that differs from x by a multiple of m. */
  lemma {:induction false} PyModUnique(x: real, m: real, r: real)
    requires m > 0.0 && 0.0 <= r < m && MultipleOf(x - r, m)
    ensures PyMod(x, m) == r
  {
    var p := PyMod(x, m);
    MultipleOfSub(x - r, x - p, m);
    assert (x - r) - (x - p) == p - r;
    MultipleOfSmall(p - r, m);
  }

  /** Reducing before adding an offset does not change the final remainder:
      (x % m + b) % m == (x + b) % m. */
  lemma {:induction false} PyModAddOffset(x: real, b: real, m: real)
    requires m > 0.0
    ensures PyMod(PyMod(x, m) + b, m) == PyMod(x + b, m)
  {
    var p, r := PyMod(x, m), PyMod(x + b, m);
    MultipleOfSub(x + b - r, x - p, m);
    assert (x + b - r) - (x - p) == (p + b) - r;
    PyModUnique(p + b, m, r);
  }

  /** For a non-negative x, `x % 1` is what `int(x)` cuts off. */
  lemma PyModOneIsFraction(x: real)
    ensures 0.0 <= x ==> PyMod(x, 1.0) == x - PyInt(x) as real
  {
    if 0.0 <= x {
      assert MultipleOf(x - (x - PyInt(x) as real), 1.0);
      PyModUnique(x, 1.0, x - PyInt(x) as real);
    }
  }
}
