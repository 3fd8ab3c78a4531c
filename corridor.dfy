/**
  The corridor shape test (`isStrokeCloseEnough`). The canonical stroke, stroked
  with the corridor width, is rasterized into a 109x109 opacity mask (the
  rasterizer is not part of this model: the mask is an input). The test measures
  the mask's tight bounding box, the freehand trace's length and extent, and the
  fraction of sampled trace points that land on opaque pixels, and accepts when
  the trace is long enough, spans enough of the canonical stroke's longer axis,
  and hits the corridor often enough; the length and extent thresholds are
  interpolated by the size of the canonical stroke.
 */
module Corridor {
  import opened Geometry

  const W: nat := 109
  const H: nat := 109

  /** `m[y][x]` holds when pixel (x, y) of the rendered corridor has non-zero alpha. */
  type Mask = m: seq<seq<bool>> | |m| == H && forall y :: 0 <= y < H ==> |m[y]| == W
    witness seq(H, _ => seq(W, _ => false))

  predicate AnyOpaque(m: Mask)
  {
    exists x, y :: 0 <= x < W && 0 <= y < H && m[y][x]
  }

  // ---------------------------------------------------------------------------
  // 2) The canonical bounding box
  // ---------------------------------------------------------------------------

  /** Running bounds of the opaque pixels seen so far. */
  datatype Bounds = Bounds(minX: int, maxX: int, minY: int, maxY: int)

  /** The initial bounds, before any opaque pixel: min at the far edge, max at -1. */
  const NoPixels := Bounds(W, -1, H, -1)

  predicate IsEmptyBox(b: Bounds) {
    b.maxX < b.minX || b.maxY < b.minY
  }

  /** The four independent updates for an opaque pixel at (x, y). */
  function Include(b: Bounds, x: int, y: int): Bounds {
    Bounds(if x < b.minX then x else b.minX, if x > b.maxX then x else b.maxX,
           if y < b.minY then y else b.minY, if y > b.maxY then y else b.maxY)
  }

  /** The bounds after scanning pixels 0..n-1 of row y, starting from `b`. */
  function ScanRow(m: Mask, b: Bounds, y: nat, n: nat): Bounds
    requires y < H && n <= W
    decreases n
  {
    if n == 0 then b
    else
      var b' := ScanRow(m, b, y, n - 1);
      if m[y][n - 1] then Include(b', n - 1, y) else b'
  }

  /** The bounds after scanning rows 0..k-1 completely. */
  function ScanRows(m: Mask, k: nat): Bounds
    requires k <= H
    decreases k
  {
    if k == 0 then NoPixels else ScanRow(m, ScanRows(m, k - 1), k - 1, W)
  }

  /** The bounds the scan of the whole mask produces. */
  function OpaqueBounds(m: Mask): Bounds
  {
    ScanRows(m, H)
  }

  /** Pixel (px, py) comes before position (n, y) in row-major order. */
  predicate Scanned(y: int, n: int, px: int, py: int) {
    0 <= px < W && 0 <= py < H && (py < y || (py == y && px < n))
  }

  /**
    `b` is what the scan should hold after visiting every pixel before (n, y): the
    initial bounds when none of them is opaque, otherwise bounds that contain every
    opaque one and are each attained by one.
   */
  ghost predicate Describes(m: Mask, b: Bounds, y: int, n: int)
  {
    if !exists px, py :: Scanned(y, n, px, py) && m[py][px] then b == NoPixels
    else
      && (forall px, py :: Scanned(y, n, px, py) && m[py][px] ==> b.minX <= px <= b.maxX && b.minY <= py <= b.maxY)
      && (exists py :: Scanned(y, n, b.minX, py) && m[py][b.minX])
      && (exists py :: Scanned(y, n, b.maxX, py) && m[py][b.maxX])
      && (exists px :: Scanned(y, n, px, b.minY) && m[b.minY][px])
      && (exists px :: Scanned(y, n, px, b.maxY) && m[b.maxY][px])
  }

  lemma {:induction false} ScanRowDescribes(m: Mask, b: Bounds, y: nat, n: nat)
    requires y < H && n <= W
    requires Describes(m, b, y, 0)
    ensures Describes(m, ScanRow(m, b, y, n), y, n)
    decreases n
  {
    if n > 0 {
      ScanRowDescribes(m, b, y, n - 1);
      PixelStepDescribes(m, ScanRow(m, b, y, n - 1), y, n - 1);
    }
  }

  /** Visiting pixel (x, y) keeps the description, one position further. */
  lemma PixelStepDescribes(m: Mask, prev: Bounds, y: nat, x: nat)
    requires y < H && x < W
    requires Describes(m, prev, y, x)
    ensures Describes(m, if m[y][x] then Include(prev, x, y) else prev, y, x + 1)
  {
    assert Scanned(y, x + 1, x, y);
    assert forall px, py :: Scanned(y, x, px, py) ==> Scanned(y, x + 1, px, py);
    assert forall px, py :: Scanned(y, x + 1, px, py) ==> Scanned(y, x, px, py) || (px == x && py == y);
    if m[y][x] {
      assert Scanned(y, x + 1, x, y) && m[y][x];
      if !exists px, py :: Scanned(y, x, px, py) && m[py][px] {
        assert prev == NoPixels;
        assert Include(prev, x, y) == Bounds(x, x, y, y);
      } else {
        OpaquePixelAfterOthers(m, prev, y, x);
      }
    }
  }

  /** An opaque pixel after earlier opaque ones: each updated bound is attained by it or by its old witness. */
  lemma OpaquePixelAfterOthers(m: Mask, prev: Bounds, y: nat, x: nat)
    requires y < H && x < W && m[y][x]
    requires Describes(m, prev, y, x)
    requires exists px, py :: Scanned(y, x, px, py) && m[py][px]
    requires forall px, py :: Scanned(y, x, px, py) ==> Scanned(y, x + 1, px, py)
    requires forall px, py :: Scanned(y, x + 1, px, py) ==> Scanned(y, x, px, py) || (px == x && py == y)
    ensures Describes(m, Include(prev, x, y), y, x + 1)
  {
    var next := Include(prev, x, y);
    var wx :| Scanned(y, x, prev.minX, wx) && m[wx][prev.minX];
    var wX :| Scanned(y, x, prev.maxX, wX) && m[wX][prev.maxX];
    var wy :| Scanned(y, x, wy, prev.minY) && m[prev.minY][wy];
    var wY :| Scanned(y, x, wY, prev.maxY) && m[prev.maxY][wY];
    assert Scanned(y, x + 1, next.minX, if x < prev.minX then y else wx);
    assert Scanned(y, x + 1, next.maxX, if x > prev.maxX then y else wX);
    assert Scanned(y, x + 1, if y < prev.minY then x else wy, next.minY);
    assert Scanned(y, x + 1, if y > prev.maxY then x else wY, next.maxY);
  }

  lemma {:induction false} ScanRowsDescribes(m: Mask, k: nat)
    requires k <= H
    ensures Describes(m, ScanRows(m, k), k, 0)
    decreases k
  {
    if k > 0 {
      ScanRowsDescribes(m, k - 1);
      ScanRowDescribes(m, ScanRows(m, k - 1), k - 1, W);
      assert forall px, py :: Scanned(k - 1, W, px, py) <==> Scanned(k, 0, px, py);
    }
  }

  /**
    The scan's result is the tight bounding box of the opaque pixels, and it is
    empty exactly when the mask has no opaque pixel.
   */
  lemma OpaqueBoundsAreTight(m: Mask)
    ensures var b := OpaqueBounds(m);
            && (IsEmptyBox(b) <==> !AnyOpaque(m))
            && (forall x, y :: 0 <= x < W && 0 <= y < H && m[y][x] ==> b.minX <= x <= b.maxX && b.minY <= y <= b.maxY)
            && (AnyOpaque(m) ==>
                  && 0 <= b.minX <= b.maxX < W && 0 <= b.minY <= b.maxY < H
                  && (exists y :: 0 <= y < H && m[y][b.minX])
                  && (exists y :: 0 <= y < H && m[y][b.maxX])
                  && (exists x :: 0 <= x < W && m[b.minY][x])
                  && (exists x :: 0 <= x < W && m[b.maxY][x]))
  {
    ScanRowsDescribes(m, H);
    assert forall px, py :: Scanned(H, 0, px, py) <==> 0 <= px < W && 0 <= py < H;
  }

  /** The bounding-box loop of the shape test. */
  method CanonicalBounds(m: Mask) returns (b: Bounds)
    ensures b == OpaqueBounds(m)
  {
    var minCX, maxCX, minCY, maxCY := W as int, -1, H as int, -1;
    var y := 0;
    while y < H
      invariant 0 <= y <= H
      invariant Bounds(minCX, maxCX, minCY, maxCY) == ScanRows(m, y)
    {
      ghost var before := ScanRows(m, y);
      var x := 0;
      while x < W
        invariant 0 <= x <= W
        invariant Bounds(minCX, maxCX, minCY, maxCY) == ScanRow(m, before, y, x)
      {
        if m[y][x] {
          if x < minCX { minCX := x; }
          if x > maxCX { maxCX := x; }
          if y < minCY { minCY := y; }
          if y > maxCY { maxCY := y; }
        }
        x := x + 1;
      }
      y := y + 1;
    }
    b := Bounds(minCX, maxCX, minCY, maxCY);
  }

  // ---------------------------------------------------------------------------
  // 3) Length and bounding box of the freehand trace
  // ---------------------------------------------------------------------------

  /**
    `lens[i]` is the Euclidean length of the segment from `pts[i]` to `pts[i + 1]`
    (the `Math.hypot` the source computes), given as an input.
   */
  /** `len` is `Math.hypot(dx, dy)`. */
  predicate IsHypot(len: real, dx: real, dy: real) {
    len >= 0.0 && len * len == Sq(dx) + Sq(dy)
  }

  predicate IsSegmentLengths(pts: seq<Point>, lens: seq<real>) {
    && |lens| == (if |pts| == 0 then 0 else |pts| - 1)
    && forall i :: 0 <= i < |lens| ==> IsHypot(lens[i], pts[i + 1].x - pts[i].x, pts[i + 1].y - pts[i].y)
  }

  function Sum(s: seq<real>): real
    decreases |s|
  {
    if |s| == 0 then 0.0 else Sum(s[..|s| - 1]) + s[|s| - 1]
  }

  function Min(a: real, b: real): real { if a <= b then a else b }

  function Max(a: real, b: real): real { if a >= b then a else b }

  function MinX(pts: seq<Point>): (r: real)
    requires |pts| > 0
    ensures forall i :: 0 <= i < |pts| ==> r <= pts[i].x
    decreases |pts|
  {
    if |pts| == 1 then pts[0].x else Min(MinX(pts[..|pts| - 1]), pts[|pts| - 1].x)
  }

  function MaxX(pts: seq<Point>): (r: real)
    requires |pts| > 0
    ensures forall i :: 0 <= i < |pts| ==> pts[i].x <= r
    decreases |pts|
  {
    if |pts| == 1 then pts[0].x else Max(MaxX(pts[..|pts| - 1]), pts[|pts| - 1].x)
  }

  function MinY(pts: seq<Point>): (r: real)
    requires |pts| > 0
    ensures forall i :: 0 <= i < |pts| ==> r <= pts[i].y
    decreases |pts|
  {
    if |pts| == 1 then pts[0].y else Min(MinY(pts[..|pts| - 1]), pts[|pts| - 1].y)
  }

  function MaxY(pts: seq<Point>): (r: real)
    requires |pts| > 0
    ensures forall i :: 0 <= i < |pts| ==> pts[i].y <= r
    decreases |pts|
  {
    if |pts| == 1 then pts[0].y else Max(MaxY(pts[..|pts| - 1]), pts[|pts| - 1].y)
  }

  /** Each side of the trace's bounding box passes through one of its points. */
  lemma {:induction false} TraceBoxAttained(pts: seq<Point>)
    requires |pts| > 0
    ensures exists i :: 0 <= i < |pts| && MinX(pts) == pts[i].x
    ensures exists i :: 0 <= i < |pts| && MaxX(pts) == pts[i].x
    ensures exists i :: 0 <= i < |pts| && MinY(pts) == pts[i].y
    ensures exists i :: 0 <= i < |pts| && MaxY(pts) == pts[i].y
    decreases |pts|
  {
    var n := |pts|;
    if n == 1 {
      assert MinX(pts) == pts[0].x && MaxX(pts) == pts[0].x && MinY(pts) == pts[0].y && MaxY(pts) == pts[0].y;
    } else {
      var front := pts[..n - 1];
      TraceBoxAttained(front);
      var a :| 0 <= a < n - 1 && MinX(front) == front[a].x;
      var b :| 0 <= b < n - 1 && MaxX(front) == front[b].x;
      var c :| 0 <= c < n - 1 && MinY(front) == front[c].y;
      var d :| 0 <= d < n - 1 && MaxY(front) == front[d].y;
      assert front[a] == pts[a] && front[b] == pts[b] && front[c] == pts[c] && front[d] == pts[d];
      assert MinX(pts) == pts[a].x || MinX(pts) == pts[n - 1].x;
      assert MaxX(pts) == pts[b].x || MaxX(pts) == pts[n - 1].x;
      assert MinY(pts) == pts[c].y || MinY(pts) == pts[n - 1].y;
      assert MaxY(pts) == pts[d].y || MaxY(pts) == pts[n - 1].y;
    }
  }

  /** Length, and bounding box, of a freehand trace. */
  datatype Trace = Trace(length: real, minX: real, maxX: real, minY: real, maxY: real)

  function TraceOf(pts: seq<Point>, lens: seq<real>): Trace
    requires |pts| > 0
  {
    Trace(Sum(lens), MinX(pts), MaxX(pts), MinY(pts), MaxY(pts))
  }

  /**
    The trace loop. The source starts the bounds at plus and minus infinity, so its
    first iteration only sets them to the first point; here that iteration is done
    before the loop.
   */
  method MeasureTrace(pts: seq<Point>, lens: seq<real>) returns (t: Trace)
    requires |pts| > 0 && |lens| == |pts| - 1
    ensures t == TraceOf(pts, lens)
  {
    var userLen := 0.0;
    var minUX, maxUX, minUY, maxUY := pts[0].x, pts[0].x, pts[0].y, pts[0].y;
    var i := 1;
    while i < |pts|
      invariant 1 <= i <= |pts|
      invariant userLen == Sum(lens[..i - 1])
      invariant minUX == MinX(pts[..i]) && maxUX == MaxX(pts[..i])
      invariant minUY == MinY(pts[..i]) && maxUY == MaxY(pts[..i])
    {
      var p := pts[i];
      assert lens[..i][..i - 1] == lens[..i - 1];
      userLen := userLen + lens[i - 1];
      if p.x < minUX { minUX := p.x; }
      if p.x > maxUX { maxUX := p.x; }
      if p.y < minUY { minUY := p.y; }
      if p.y > maxUY { maxUY := p.y; }
      assert pts[..i + 1][..i] == pts[..i];
      i := i + 1;
    }
    assert pts[..|pts|] == pts;
    assert lens[..|pts| - 1] == lens;
    t := Trace(userLen, minUX, maxUX, minUY, maxUY);
  }

  /** A segment is at least as long as its horizontal or vertical run. */
  lemma RunWithinSegment(len: real, dx: real, dy: real)
    requires IsHypot(len, dx, dy)
    ensures -len <= dx <= len && -len <= dy <= len
  {
    assert Sq(dy) >= 0.0 && Sq(dx) >= 0.0;
    if len < dx {
      SquareGrows(len, dx);
    }
    if len < -dx {
      SquareGrows(len, -dx);
    }
    if len < dy {
      SquareGrows(len, dy);
    }
    if len < -dy {
      SquareGrows(len, -dy);
    }
  }

  lemma SegmentLengthsOfPrefix(pts: seq<Point>, lens: seq<real>)
    requires |pts| > 1 && IsSegmentLengths(pts, lens)
    ensures IsSegmentLengths(pts[..|pts| - 1], lens[..|lens| - 1])
  {
    var front, frontLens := pts[..|pts| - 1], lens[..|lens| - 1];
    forall i | 0 <= i < |frontLens|
      ensures IsHypot(frontLens[i], front[i + 1].x - front[i].x, front[i + 1].y - front[i].y)
    {
      assert frontLens[i] == lens[i] && front[i] == pts[i] && front[i + 1] == pts[i + 1];
    }
  }

  /** The freehand trace's extent on either axis never exceeds its traced length. */
  lemma {:induction false} ExtentWithinLength(pts: seq<Point>, lens: seq<real>)
    requires |pts| > 0 && IsSegmentLengths(pts, lens)
    ensures MaxX(pts) - MinX(pts) <= Sum(lens) && MaxY(pts) - MinY(pts) <= Sum(lens)
    decreases |pts|
  {
    if |pts| > 1 {
      var n := |pts|;
      var front, frontLens := pts[..n - 1], lens[..n - 2];
      SegmentLengthsOfPrefix(pts, lens);
      ExtentWithinLength(front, frontLens);
      var prev, last, len := pts[n - 2], pts[n - 1], lens[n - 2];
      assert IsHypot(len, last.x - prev.x, last.y - prev.y);
      RunWithinSegment(len, last.x - prev.x, last.y - prev.y);
      assert front[n - 2] == prev;
      assert MinX(front) <= prev.x <= MaxX(front);
      assert MinY(front) <= prev.y <= MaxY(front);
      assert Sum(lens) == Sum(frontLens) + len;
    }
  }

  // ---------------------------------------------------------------------------
  // 4) Corridor hit ratio
  // ---------------------------------------------------------------------------

  /** `Math.max(1, Math.floor(n / 40))`: every `Stride(n)`-th point is sampled. */
  function Stride(n: nat): (s: nat)
    ensures s >= 1
  {
    if n / 40 > 1 then n / 40 else 1
  }

  /** JavaScript's `Math.round`: to the nearest integer, halves upward. */
  function Round(v: real): (r: int)
    ensures v - 0.5 < r as real <= v + 0.5
  {
    (v + 0.5).Floor
  }

  /** Sampled points that landed on the grid (`total`), and those of them on an opaque pixel (`hits`). */
  datatype Tally = Tally(hits: nat, total: nat)

  predicate OnGrid(x: int, y: int) {
    0 <= x < W && 0 <= y < H
  }

  /** The tally over the samples at indices i, i + step, i + 2 step, ... */
  function TallyFrom(pts: seq<Point>, m: Mask, step: nat, i: nat): Tally
    requires step >= 1
    decreases |pts| - i
  {
    if i >= |pts| then Tally(0, 0)
    else
      var rest := TallyFrom(pts, m, step, i + step);
      var x, y := Round(pts[i].x), Round(pts[i].y);
      if !OnGrid(x, y) then rest
      else Tally(rest.hits + (if m[y][x] then 1 else 0), rest.total + 1)
  }

  function SampleTally(pts: seq<Point>, m: Mask): Tally
  {
    TallyFrom(pts, m, Stride(|pts|), 0)
  }

  /** The sampling loop. */
  method SampleCorridor(pts: seq<Point>, m: Mask) returns (t: Tally)
    ensures t == SampleTally(pts, m)
  {
    var hits, total := 0, 0;
    var step := Stride(|pts|);
    var i := 0;
    while i < |pts|
      invariant hits + TallyFrom(pts, m, step, i).hits == SampleTally(pts, m).hits
      invariant total + TallyFrom(pts, m, step, i).total == SampleTally(pts, m).total
      decreases |pts| - i
    {
      var x, y := Round(pts[i].x), Round(pts[i].y);
      if x < 0 || x >= W || y < 0 || y >= H {
        i := i + step;
        continue;
      }
      total := total + 1;
      if m[y][x] {
        hits := hits + 1;
      }
      i := i + step;
    }
    t := Tally(hits, total);
  }

  /** How many indices i, i + step, ... fall below n. */
  function SampleCount(n: nat, step: nat, i: nat): nat
    requires step >= 1
    decreases n - i
  {
    if i >= n then 0 else 1 + SampleCount(n, step, i + step)
  }

  lemma {:induction false} TallyWithinSamples(pts: seq<Point>, m: Mask, step: nat, i: nat)
    requires step >= 1
    ensures var t := TallyFrom(pts, m, step, i);
            t.hits <= t.total <= SampleCount(|pts|, step, i)
    decreases |pts| - i
  {
    if i < |pts| {
      TallyWithinSamples(pts, m, step, i + step);
    }
  }

  /** The sample count is the ceiling of (n - i) / step. */
  lemma {:induction false} SampleCountIsCeiling(n: nat, step: nat, i: nat)
    requires step >= 1 && i < n
    ensures var c := SampleCount(n, step, i);
            (c - 1) * step < n - i <= c * step
    decreases n - i
  {
    var c := SampleCount(n, step, i);
    if i + step < n {
      SampleCountIsCeiling(n, step, i + step);
      var c' := SampleCount(n, step, i + step);
      assert c == c' + 1;
      assert c * step == c' * step + step;
      assert (c - 1) * step == c' * step;
      assert (c' - 1) * step == c' * step - step;
    } else {
      assert c == 1;
    }
  }

  /**
    How many points the hit ratio looks at: all of them for traces shorter than 80
    points, and between 40 and 60 for longer ones.
   */
  lemma SampledPointCount(n: nat)
    requires n > 0
    ensures var c := SampleCount(n, Stride(n), 0);
            && (n < 80 ==> c == n)
            && (n >= 80 ==> 40 <= c <= 60)
  {
    var s := Stride(n);
    var c := SampleCount(n, s, 0);
    SampleCountIsCeiling(n, s, 0);
    if n < 80 {
      assert s == 1;
    } else {
      assert s == n / 40 && s >= 2;
      assert 40 * s <= n < 40 * s + 40;
      if c < 40 {
        IntMulMono(c, 39, s);
        assert false;
      }
      if c > 60 {
        IntMulMono(60, c - 1, s);
        assert false;
      }
    }
  }

  // ---------------------------------------------------------------------------
  // 5) Size-dependent thresholds and the verdict
  // ---------------------------------------------------------------------------

  const SmallDiag: real := 20.0
  const LargeDiag: real := 80.0

  /** The interpolation factor: 0 for small strokes, 1 for large ones, linear between. */
  function SizeFactor(diag: real): (t: real)
    ensures 0.0 <= t <= 1.0
  {
    if diag <= SmallDiag then 0.0
    else if diag >= LargeDiag then 1.0
    else (diag - SmallDiag) / (LargeDiag - SmallDiag)
  }

  function Clamp01(v: real): real {
    if v < 0.0 then 0.0 else if v > 1.0 then 1.0 else v
  }

  /** The three-way branch is the linear ramp (diag - 20) / 60 clamped to [0, 1]. */
  lemma SizeFactorIsClampedRamp(diag: real)
    ensures SizeFactor(diag) == Clamp01((diag - SmallDiag) / (LargeDiag - SmallDiag))
  {
  }

  datatype Thresholds = Thresholds(minLengthFrac: real, minMainFrac: real, minAbsLength: real)

  function ThresholdsFor(diag: real): (th: Thresholds)
    ensures 0.50 <= th.minLengthFrac <= 0.85 && 0.50 <= th.minMainFrac <= 0.80 && 5.0 <= th.minAbsLength <= 10.0
    ensures diag <= SmallDiag ==> th == Thresholds(0.50, 0.50, 5.0)
    ensures diag >= LargeDiag ==> th == Thresholds(0.85, 0.80, 10.0)
  {
    var t := SizeFactor(diag);
    Thresholds(0.50 + t * (0.85 - 0.50), 0.50 + t * (0.80 - 0.50), 5.0 + t * (10.0 - 5.0))
  }

  /** Larger canonical strokes never get looser thresholds. */
  lemma ThresholdsTightenWithSize(d1: real, d2: real)
    requires d1 <= d2
    ensures var a, b := ThresholdsFor(d1), ThresholdsFor(d2);
            a.minLengthFrac <= b.minLengthFrac && a.minMainFrac <= b.minMainFrac && a.minAbsLength <= b.minAbsLength
  {
    var t1, t2 := SizeFactor(d1), SizeFactor(d2);
    if d1 > SmallDiag && d2 < LargeDiag {
      assert t1 <= t2 by {
        assert (d1 - SmallDiag) / 60.0 <= (d2 - SmallDiag) / 60.0;
      }
    }
  }

  /** A stroke of diagonal 50 sits half-way: t = 0.5. */
  lemma MidSizeThresholds()
    ensures SizeFactor(50.0) == 0.5 && ThresholdsFor(50.0) == Thresholds(0.675, 0.65, 7.5)
  {
  }

  /** The four acceptance conditions, the extent measured on the canonical stroke's longer axis. */
  predicate MeetsThresholds(userLen: real, userW: real, userH: real, canonW: int, canonH: int,
                            diag: real, ratio: real, hitRatio: real)
  {
    var th := ThresholdsFor(diag);
    var hasEnoughLength := userLen >= th.minAbsLength && (diag <= 0.0 || userLen / diag >= th.minLengthFrac);
    var canonMain := if canonW >= canonH then canonW else canonH;
    var userMain := if canonW >= canonH then userW else userH;
    var mainFrac := if canonMain > 0 then userMain / canonMain as real else 1.0;
    hasEnoughLength && mainFrac >= th.minMainFrac && ratio >= hitRatio
  }

  /** `diag` is `Math.hypot` of the canonical box's width and height (when there is a box). */
  predicate IsDiagonal(m: Mask, diag: real)
  {
    var b := OpaqueBounds(m);
    IsEmptyBox(b) || (diag >= 0.0 && diag * diag == Sq((b.maxX - b.minX + 1) as real) + Sq((b.maxY - b.minY + 1) as real))
  }

  /** The verdict of the shape test for a freehand trace against one canonical corridor. */
  function ShapeVerdict(pts: seq<Point>, lens: seq<real>, m: Mask, diag: real, hitRatio: real): bool
  {
    if |pts| < 5 then false
    else
      var b := OpaqueBounds(m);
      if IsEmptyBox(b) then false
      else
        var tally := SampleTally(pts, m);
        if tally.total == 0 then false
        else
          MeetsThresholds(Sum(lens), MaxX(pts) - MinX(pts), MaxY(pts) - MinY(pts),
                          b.maxX - b.minX + 1, b.maxY - b.minY + 1,
                          diag, tally.hits as real / tally.total as real, hitRatio)
  }

  /** `isStrokeCloseEnough`. */
  method IsStrokeCloseEnough(pts: seq<Point>, lens: seq<real>, m: Mask, diag: real, hitRatio: real)
    returns (ok: bool)
    requires IsSegmentLengths(pts, lens) && IsDiagonal(m, diag)
    ensures ok == ShapeVerdict(pts, lens, m, diag, hitRatio)
  {
    if |pts| < 5 {
      return false;
    }
    var b := CanonicalBounds(m);
    if b.maxX < b.minX || b.maxY < b.minY {
      return false;
    }
    var canonW, canonH := b.maxX - b.minX + 1, b.maxY - b.minY + 1;
    var trace := MeasureTrace(pts, lens);
    var userW, userH := trace.maxX - trace.minX, trace.maxY - trace.minY;
    var tally := SampleCorridor(pts, m);
    if tally.total == 0 {
      return false;
    }
    var ratio := tally.hits as real / tally.total as real;
    var t := 0.0;
    if diag <= SmallDiag {
      t := 0.0;
    } else if diag >= LargeDiag {
      t := 1.0;
    } else {
      t := (diag - SmallDiag) / (LargeDiag - SmallDiag);
    }
    var minLengthFrac := 0.50 + t * (0.85 - 0.50);
    var minMainFrac := 0.50 + t * (0.80 - 0.50);
    var minAbsLength := 5.0 + t * (10.0 - 5.0);
    var hasEnoughLength := trace.length >= minAbsLength && (diag <= 0.0 || trace.length / diag >= minLengthFrac);
    var canonMain := if canonW >= canonH then canonW else canonH;
    var userMain := if canonW >= canonH then userW else userH;
    var mainFrac := if canonMain > 0 then userMain / canonMain as real else 1.0;
    var hasEnoughExtent := mainFrac >= minMainFrac;
    ok := hasEnoughLength && hasEnoughExtent && ratio >= hitRatio;
  }

  /** Traces of fewer than 5 points, empty corridors and traces with no sample on the grid are rejected. */
  lemma ShapeRejections(pts: seq<Point>, lens: seq<real>, m: Mask, diag: real, hitRatio: real)
    ensures |pts| < 5 ==> !ShapeVerdict(pts, lens, m, diag, hitRatio)
    ensures !AnyOpaque(m) ==> !ShapeVerdict(pts, lens, m, diag, hitRatio)
    ensures SampleTally(pts, m).total == 0 ==> !ShapeVerdict(pts, lens, m, diag, hitRatio)
  {
    OpaqueBoundsAreTight(m);
  }

  /**
    An accepted trace has at least 5 points, the corridor is non-empty, the trace is
    at least 5 units long and at least half the canonical diagonal, and at least a
    `hitRatio` share of its on-grid samples lie on the corridor.
   */
  lemma AcceptedTraceCoversCorridor(pts: seq<Point>, lens: seq<real>, m: Mask, diag: real, hitRatio: real)
    requires IsDiagonal(m, diag)
    requires ShapeVerdict(pts, lens, m, diag, hitRatio)
    ensures |pts| >= 5 && AnyOpaque(m)
    ensures Sum(lens) >= 5.0 && Sum(lens) >= 0.5 * diag
    ensures var t := SampleTally(pts, m);
            t.total > 0 && t.hits as real >= hitRatio * t.total as real
  {
    OpaqueBoundsAreTight(m);
    var b := OpaqueBounds(m);
    DiagonalIsPositive(m, diag);
    var t := SampleTally(pts, m);
    var ratio := t.hits as real / t.total as real;
    LengthAndRatioBounds(Sum(lens), MaxX(pts) - MinX(pts), MaxY(pts) - MinY(pts),
                         b.maxX - b.minX + 1, b.maxY - b.minY + 1, diag, ratio, hitRatio);
    QuotientBound(t.hits as real, t.total as real, hitRatio);
  }

  /** A non-empty corridor has a positive diagonal. */
  lemma DiagonalIsPositive(m: Mask, diag: real)
    requires IsDiagonal(m, diag) && !IsEmptyBox(OpaqueBounds(m))
    ensures diag > 0.0
  {
    var b := OpaqueBounds(m);
    var w := (b.maxX - b.minX + 1) as real;
    assert w >= 1.0;
    SquareGrows(0.0, w);
    assert diag * diag > 0.0;
  }

  /** Meeting the thresholds for a positive diagonal: at least 5 units, at least half the diagonal, enough hits. */
  lemma LengthAndRatioBounds(userLen: real, userW: real, userH: real, canonW: int, canonH: int,
                             diag: real, ratio: real, hitRatio: real)
    requires diag > 0.0
    requires MeetsThresholds(userLen, userW, userH, canonW, canonH, diag, ratio, hitRatio)
    ensures userLen >= 5.0 && userLen >= 0.5 * diag && ratio >= hitRatio
  {
    var th := ThresholdsFor(diag);
    assert userLen / diag >= 0.5;
    QuotientBound(userLen, diag, 0.5);
  }
}
