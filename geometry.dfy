/** Points of the 109x109 logical drawing grid shared by canonical and freehand strokes. */
module Geometry {

  datatype Point = Point(x: real, y: real)

  function Sq(v: real): (r: real)
    ensures r >= 0.0
  {
    v * v
  }

  lemma MulNonneg(x: real, y: real)
    requires x >= 0.0 && y >= 0.0
    ensures x * y >= 0.0
  {
  }

  lemma MulPos(x: real, y: real)
    requires x > 0.0 && y > 0.0
    ensures x * y > 0.0
  {
  }

  /** Squaring is strictly increasing on the non-negative reals. */
  lemma SquareGrows(a: real, b: real)
    requires 0.0 <= a < b
    ensures a * a < b * b
  {
    MulNonneg(a, b - a);
    MulPos(b, b - a);
    assert a * (b - a) == a * b - a * a;
    assert b * (b - a) == b * b - a * b;
    assert a * b - a * a >= 0.0;
    assert b * b - a * b > 0.0;
  }

  /** A quotient by a positive number of at least f means the dividend is at least f times the divisor. */
  lemma QuotientBound(a: real, d: real, f: real)
    requires d > 0.0 && a / d >= f
    ensures a >= f * d
  {
    MulNonneg(a / d - f, d);
    assert (a / d - f) * d == a - f * d;
  }

  lemma IntMulMono(a: int, b: int, s: int)
    requires a <= b && s >= 0
    ensures a * s <= b * s
  {
  }
}
