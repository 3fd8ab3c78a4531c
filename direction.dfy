/**
  The direction test (`isDirectionCorrect`): a freehand stroke passes when its
  displacement, first point to last, points within about 72 degrees of the canonical
  stroke's start-to-end displacement (normalized dot product at least 0.3). The test
  never blocks when it cannot judge: validation off, no stroke record, fewer than two
  points, a missing canonical endpoint, a freehand displacement shorter than 5 units
  or a canonical one shorter than 1 unit.

  The lengths `Math.hypot` returns are not computed here: the test is stated on
  squared lengths, and `AgreesWithNormalizedDot` shows it is the source's formula
  for any lengths that are the true Euclidean ones.
 */
module Direction {
  import opened Wrappers
  import opened Geometry
  import opened StrokeExtraction

  const MinUserLength: real := 5.0
  const MinCanonicalLength: real := 1.0
  const MinCosine: real := 0.3

  /** The canonical displacement, when the record has all four endpoint coordinates. */
  function CanonicalVector(meta: StrokeRecord): Option<Point> {
    if meta.startX.None? || meta.startY.None? || meta.endX.None? || meta.endY.None? then None
    else Some(Point(meta.endX.value - meta.startX.value, meta.endY.value - meta.startY.value))
  }

  function Dot(u: Point, c: Point): real {
    u.x * c.x + u.y * c.y
  }

  function Norm2(u: Point): real {
    Sq(u.x) + Sq(u.y)
  }

  /** The freehand displacement from first to last point. */
  function UserVector(pts: seq<Point>): Point
    requires |pts| > 0
  {
    Point(pts[|pts| - 1].x - pts[0].x, pts[|pts| - 1].y - pts[0].y)
  }

  /** The direction test, on squared lengths. */
  function IsDirectionCorrect(validate: bool, pts: seq<Point>, meta: Option<StrokeRecord>): bool {
    if !validate then true
    else if meta.None? || |pts| < 2 then true
    else match CanonicalVector(meta.value)
      case None => true
      case Some(c) =>
        var u := UserVector(pts);
        if Norm2(u) < MinUserLength * MinUserLength then true
        else if Norm2(c) < MinCanonicalLength * MinCanonicalLength then true
        else
          var d := Dot(u, c);
          d >= 0.0 && d * d >= MinCosine * MinCosine * Norm2(u) * Norm2(c)
  }

  /** The test as the source writes it, given the two Euclidean lengths. */
  function DirectionByLengths(validate: bool, pts: seq<Point>, meta: Option<StrokeRecord>, ulen: real, clen: real): bool {
    if !validate then true
    else if meta.None? || |pts| < 2 then true
    else match CanonicalVector(meta.value)
      case None => true
      case Some(c) =>
        if ulen < MinUserLength then true
        else if clen < MinCanonicalLength then true
        else Dot(UserVector(pts), c) / (ulen * clen) >= MinCosine
  }

  lemma SquaresOrdered(a: real, k: real)
    requires a >= 0.0 && k >= 0.0
    ensures a < k <==> a * a < k * k
  {
    if a < k {
      SquareGrows(a, k);
    } else if k < a {
      SquareGrows(k, a);
    }
  }

  /** For positive k, d >= k exactly when d is non-negative and d squared is at least k squared. */
  lemma AtLeastBySquares(d: real, k: real)
    requires k > 0.0
    ensures d >= k <==> (d >= 0.0 && d * d >= k * k)
  {
    if d >= 0.0 {
      SquaresOrdered(d, k);
    }
  }

  lemma QuotientIff(a: real, d: real, f: real)
    requires d > 0.0
    ensures a / d >= f <==> a >= f * d
  {
    if a / d >= f {
      QuotientBound(a, d, f);
    }
    if a >= f * d {
      assert a / d >= f by {
        assert a / d - f == (a - f * d) / d;
      }
    }
  }

  /** The squared form is the source's normalized-dot test, for the true lengths. */
  lemma AgreesWithNormalizedDot(validate: bool, pts: seq<Point>, meta: Option<StrokeRecord>, ulen: real, clen: real)
    requires |pts| > 0 ==> ulen >= 0.0 && ulen * ulen == Norm2(UserVector(pts))
    requires meta.Some? && CanonicalVector(meta.value).Some? ==>
               clen >= 0.0 && clen * clen == Norm2(CanonicalVector(meta.value).value)
    ensures IsDirectionCorrect(validate, pts, meta) == DirectionByLengths(validate, pts, meta, ulen, clen)
  {
    if validate && meta.Some? && |pts| >= 2 && CanonicalVector(meta.value).Some? {
      var u, c := UserVector(pts), CanonicalVector(meta.value).value;
      SquaresOrdered(ulen, MinUserLength);
      SquaresOrdered(clen, MinCanonicalLength);
      if ulen >= MinUserLength && clen >= MinCanonicalLength {
        var d := Dot(u, c);
        MulPos(ulen, clen);
        QuotientIff(d, ulen * clen, MinCosine);
        AtLeastBySquares(d, MinCosine * (ulen * clen));
        assert (MinCosine * (ulen * clen)) * (MinCosine * (ulen * clen))
            == MinCosine * MinCosine * (ulen * ulen) * (clen * clen);
      }
    }
  }

  /** A stroke drawn against the canonical direction (any positive multiple of its reverse) fails. */
  lemma ReversedStrokeFails(pts: seq<Point>, meta: StrokeRecord, s: real)
    requires |pts| >= 2 && s > 0.0
    requires CanonicalVector(meta).Some?
    requires var c := CanonicalVector(meta).value;
             UserVector(pts) == Point(-s * c.x, -s * c.y)
    requires Norm2(UserVector(pts)) >= MinUserLength * MinUserLength
    requires Norm2(CanonicalVector(meta).value) >= MinCanonicalLength * MinCanonicalLength
    ensures !IsDirectionCorrect(true, pts, Some(meta))
  {
    var c := CanonicalVector(meta).value;
    assert Dot(UserVector(pts), c) == -s * Norm2(c);
    MulPos(s, Norm2(c));
  }

  /** A stroke drawn along the canonical direction (any positive multiple of it) passes. */
  lemma AlignedStrokePasses(pts: seq<Point>, meta: StrokeRecord, s: real)
    requires |pts| >= 2 && s > 0.0
    requires CanonicalVector(meta).Some?
    requires var c := CanonicalVector(meta).value;
             UserVector(pts) == Point(s * c.x, s * c.y)
    ensures IsDirectionCorrect(true, pts, Some(meta))
  {
    var c := CanonicalVector(meta).value;
    var u := UserVector(pts);
    var n := Norm2(c);
    assert Dot(u, c) == s * n;
    assert Norm2(u) == s * s * n;
    MulNonneg(s, n);
    var d := s * n;
    assert d * d == (s * s * n) * n;
    MulNonneg(s * s * n, n);
  }

  /** Validation switched off, or a missing stroke record, never blocks a stroke. */
  lemma UnjudgedStrokesPass(validate: bool, pts: seq<Point>, meta: Option<StrokeRecord>)
    requires !validate || meta.None? || |pts| < 2 || (meta.Some? && CanonicalVector(meta.value).None?)
    ensures IsDirectionCorrect(validate, pts, meta)
  {
  }

  /** A freehand displacement under 5 units, or a canonical one under 1 unit, is not judged either. */
  lemma ShortDisplacementsPass(pts: seq<Point>, meta: StrokeRecord)
    requires |pts| >= 2 && CanonicalVector(meta).Some?
    requires Norm2(UserVector(pts)) < MinUserLength * MinUserLength
             || Norm2(CanonicalVector(meta).value) < MinCanonicalLength * MinCanonicalLength
    ensures IsDirectionCorrect(true, pts, Some(meta))
  {
  }
}
