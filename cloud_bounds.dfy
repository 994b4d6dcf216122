/**
 * The gene ranges the constructor derives from the point cloud: the bounding
 * box of the cloud for the centre, and [max_dim / 10, max_dim] for the radius,
 * where max_dim is the larger side of the bounding box.
 */
module CloudBounds {
  import opened Circles

  function SeqMin(s: seq<real>): (m: real)
    requires |s| > 0
    ensures m in s
    ensures forall i :: 0 <= i < |s| ==> m <= s[i]
  {
    if |s| == 1 then s[0]
    else
      var rest := SeqMin(s[1..]);
      if s[0] <= rest then s[0] else rest
  }

  function SeqMax(s: seq<real>): (m: real)
    requires |s| > 0
    ensures m in s
    ensures forall i :: 0 <= i < |s| ==> s[i] <= m
  {
    if |s| == 1 then s[0]
    else
      var rest := SeqMax(s[1..]);
      if s[0] >= rest then s[0] else rest
  }

  /** The x column of the cloud. */
  function Xs(points: seq<Point>): (xs: seq<real>)
    ensures |xs| == |points|
  {
    seq(|points|, i requires 0 <= i < |points| => points[i].x)
  }

  /** The y column of the cloud. */
  function Ys(points: seq<Point>): (ys: seq<real>)
    ensures |ys| == |points|
  {
    seq(|points|, i requires 0 <= i < |points| => points[i].y)
  }

  /** Python's two-argument max: the second argument only when it is larger. */
  function Max(a: real, b: real): real
  {
    if b > a then b else a
  }

  const RadiusDivisor: real := 10.0

  function Span(rg: Range): real
  {
    rg.hi - rg.lo
  }

  /**
   * x_range and y_range are the per-axis minimum and maximum of the cloud
   * (both attained by some point, every point inside them); r_range is
   * (max_dim / 10, max_dim) with max_dim the larger of the two spans.
   * The result is well formed: every range is non-empty and 0 <= r_min.
   */
  function DeriveBounds(points: seq<Point>): (b: Bounds)
    requires |points| > 0
    ensures WellFormed(b)
    ensures forall i :: 0 <= i < |points| ==>
              Contains(b.xRange, points[i].x) && Contains(b.yRange, points[i].y)
    ensures exists i :: 0 <= i < |points| && points[i].x == b.xRange.lo
    ensures exists i :: 0 <= i < |points| && points[i].x == b.xRange.hi
    ensures exists i :: 0 <= i < |points| && points[i].y == b.yRange.lo
    ensures exists i :: 0 <= i < |points| && points[i].y == b.yRange.hi
    ensures Span(b.xRange) <= b.rRange.hi && Span(b.yRange) <= b.rRange.hi
    ensures b.rRange.hi == Span(b.xRange) || b.rRange.hi == Span(b.yRange)
    ensures b.rRange.lo * RadiusDivisor == b.rRange.hi
  {
    var xs, ys := Xs(points), Ys(points);
    var xRange := Range(SeqMin(xs), SeqMax(xs));
    var yRange := Range(SeqMin(ys), SeqMax(ys));
    assert forall i :: 0 <= i < |points| ==> xs[i] == points[i].x && ys[i] == points[i].y;
    var maxDim := Max(Span(xRange), Span(yRange));
    Bounds(xRange, yRange, Range(maxDim / RadiusDivisor, maxDim))
  }
}
