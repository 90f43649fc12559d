/** Plane geometry of the estimator: detected segments, fitted lines, the
    inversion of a line at a given row, and Python's truncating `int()`.
    Coordinates are pixels; rows grow downwards, so a left lane boundary has a
    negative slope in image space. */
module Geometry {

  /** A detected segment from (x1, y1) to (x2, y2), in integer pixel coordinates. */
  datatype Segment = Segment(x1: int, y1: int, x2: int, y2: int)

  /** The line y = slope * x + intercept. */
  datatype Fit = Fit(slope: real, intercept: real)

  /** A degree-1 fit through two points is determined only when their x differ. */
  predicate NonVertical(s: Segment) {
    s.x1 != s.x2
  }

  predicate AllNonVertical(segs: seq<Segment>) {
    forall s :: s in segs ==> NonVertical(s)
  }

  /** The point (x, y) lies on the line `f`. */
  predicate OnLine(f: Fit, x: real, y: real) {
    f.slope * x + f.intercept == y
  }

  /** The first-degree polynomial fit through the two endpoints of `s`, that is,
      the exact line through them: it passes through both endpoints, and it is
      horizontal exactly when the segment is. */
  function FitSegment(s: Segment): (f: Fit)
    requires NonVertical(s)
    ensures OnLine(f, s.x1 as real, s.y1 as real)
    ensures OnLine(f, s.x2 as real, s.y2 as real)
    ensures f.slope == 0.0 <==> s.y1 == s.y2
  {
    var slope := (s.y2 - s.y1) as real / (s.x2 - s.x1) as real;
    Fit(slope, s.y1 as real - slope * s.x1 as real)
  }

  /** Two points with distinct x lie on exactly one line, so the fit of a
      segment is the only line through both of its endpoints. */
  lemma FitSegmentUnique(s: Segment, f: Fit)
    requires NonVertical(s)
    ensures OnLine(f, s.x1 as real, s.y1 as real) && OnLine(f, s.x2 as real, s.y2 as real)
            <==> f == FitSegment(s)
  {
    var g := FitSegment(s);
    if OnLine(f, s.x1 as real, s.y1 as real) && OnLine(f, s.x2 as real, s.y2 as real) {
      var dx := (s.x2 - s.x1) as real;
      assert (f.slope - g.slope) * dx == 0.0;
      assert f.slope == g.slope;
    }
  }

  /** The x at which the non-horizontal line `f` reaches row `y`. */
  function SolveX(f: Fit, y: real): (x: real)
    requires f.slope != 0.0
    ensures OnLine(f, x, y)
  {
    (y - f.intercept) / f.slope
  }

  /** A non-horizontal line reaches each row at exactly one x. */
  lemma SolveXUnique(f: Fit, x: real, y: real)
    requires f.slope != 0.0
    ensures OnLine(f, x, y) <==> x == SolveX(f, y)
  {
    if OnLine(f, x, y) {
      assert f.slope * (x - SolveX(f, y)) == 0.0;
    }
  }

  /** `n` is `r` truncated toward zero: the integer nearest `r` on the side of zero. */
  predicate TruncOf(n: int, r: real) {
    if r >= 0.0 then n as real <= r < n as real + 1.0
    else n as real - 1.0 < r <= n as real
  }

  /** Python's `int()` on a finite float: truncation toward zero. */
  function Trunc(r: real): (n: int)
    ensures TruncOf(n, r)
    ensures -1.0 < n as real - r < 1.0
  {
    if r >= 0.0 then r.Floor else -((-r).Floor)
  }

  /** Truncation has a single answer, and it is the identity on whole numbers. */
  lemma TruncOfUnique(n: int, m: int, r: real)
    requires TruncOf(n, r) && TruncOf(m, r)
    ensures n == m
  {
  }

  lemma TruncWhole(k: int)
    ensures Trunc(k as real) == k
  {
    TruncOfUnique(Trunc(k as real), k, k as real);
  }

  /** Row `int(height * 3 / 5)`: three fifths of the way down a frame of the
      given height, which for a non-negative height is integer division. */
  function HorizonRow(height: nat): (y: int)
    ensures y == (3 * height) / 5
    ensures 0 <= y <= height
  {
    var q := (3 * height) / 5;
    var exact := height as real * 3.0 / 5.0;
    assert 3 * height == 5 * q + (3 * height) % 5;
    assert q as real <= exact < q as real + 1.0;
    TruncOfUnique(Trunc(exact), q, exact);
    Trunc(exact)
  }
}
