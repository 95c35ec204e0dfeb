/**
 * Python's numeric conversions on floats, modelled on exact reals: `int(x)` truncates toward
 * zero and `math.ceil(x)` rounds up. Binary floating-point rounding is not modelled.
 */
module PyMath {
  /** `int(x)` for a float x: rounds toward zero. */
  function Trunc(x: real): (r: int)
    ensures x >= 0.0 ==> 0 <= r && r as real <= x < r as real + 1.0
    ensures x < 0.0 ==> r <= 0 && r as real - 1.0 < x <= r as real
  {
    if x >= 0.0 then x.Floor else -((-x).Floor)
  }

  /** `math.ceil(x)`: the least integer not below x. */
  function Ceil(x: real): (r: int)
    ensures x <= r as real < x + 1.0
  {
    -((-x).Floor)
  }

  lemma CeilMonotone(x: real, y: real)
    requires x <= y
    ensures Ceil(x) <= Ceil(y)
  {
  }

  /** `max(0, x)`, which is also the length of `'a' * x`. */
  function NonNeg(x: int): (r: nat)
    ensures x >= 0 ==> r == x
    ensures x < 0 ==> r == 0
  {
    if x < 0 then 0 else x
  }

  /** `len(range(a, b))`. */
  function RangeLength(a: int, b: int): (r: nat)
    ensures a <= b ==> r == b - a
    ensures b < a ==> r == 0
  {
    if b <= a then 0 else b - a
  }

  lemma MulLe(x: real, y: real, c: real)
    requires x <= y && c >= 0.0
    ensures x * c <= y * c
  {
    assert (y - x) * c >= 0.0;
  }

  lemma MulLt(x: real, y: real, c: real)
    requires x < y && c > 0.0
    ensures x * c < y * c
  {
    assert (y - x) * c > 0.0;
  }

  /** Dividing by a non-zero number and multiplying back gives the number. */
  lemma DivTimes(x: real, d: real)
    requires d != 0.0
    ensures x / d * d == x
  {
  }

  /** Bounds on a quotient carry over to the dividend, scaled by the (positive) divisor. */
  lemma QuotientBounds(d: real, g: real, lo: real, hi: real)
    requires g > 0.0 && lo <= d / g < hi
    ensures lo * g <= d < hi * g
  {
    var q := d / g;
    assert q * g == d;
    MulLe(lo, q, g);
    MulLt(q, hi, g);
  }

  /** `int(d / g)` whole steps of length g fit in d, and one more does not. */
  lemma TruncQuotientFits(d: real, g: real)
    requires d >= 0.0 && g > 0.0
    ensures 0 <= Trunc(d / g)
    ensures Trunc(d / g) as real * g <= d < (Trunc(d / g) + 1) as real * g
  {
    if d / g < 0.0 {
      QuotientBounds(d, g, d / g - 1.0, 0.0);
      assert false;
    }
    var n := Trunc(d / g);
    QuotientBounds(d, g, n as real, n as real + 1.0);
  }
}
