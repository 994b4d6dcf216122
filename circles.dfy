/**
 * The value types of the optimiser: points of the cloud, candidate circles
 * (one row (cx, cy, r) of the population array) and the legal range of each gene.
 */
module Circles {

  /** One point of the input cloud. */
  datatype Point = Point(x: real, y: real)

  /** One individual: centre (cx, cy) and radius r. */
  datatype Circle = Circle(cx: real, cy: real, r: real)

  /** A closed interval given by its (min, max) pair. */
  datatype Range = Range(lo: real, hi: real)

  /** The legal ranges of the three genes: x_range, y_range and r_range. */
  datatype Bounds = Bounds(xRange: Range, yRange: Range, rRange: Range)

  predicate Contains(rg: Range, v: real)
  {
    rg.lo <= v <= rg.hi
  }

  /** Every range is non-empty and radii are never negative. */
  predicate WellFormed(b: Bounds)
  {
    && b.xRange.lo <= b.xRange.hi
    && b.yRange.lo <= b.yRange.hi
    && 0.0 <= b.rRange.lo <= b.rRange.hi
  }

  predicate InBounds(c: Circle, b: Bounds)
  {
    Contains(b.xRange, c.cx) && Contains(b.yRange, c.cy) && Contains(b.rRange, c.r)
  }

  predicate AllInBounds(pop: seq<Circle>, b: Bounds)
  {
    forall i :: 0 <= i < |pop| ==> InBounds(pop[i], b)
  }

  /** The gene vector of a row: position 0 is cx, 1 is cy, 2 is r. */
  function Genes(c: Circle): (g: seq<real>)
    ensures |g| == 3
  {
    [c.cx, c.cy, c.r]
  }

  /** The range that bounds gene position j (any j above 1 is the radius). */
  function RangeOf(b: Bounds, j: nat): Range
  {
    if j == 0 then b.xRange else if j == 1 then b.yRange else b.rRange
  }

  function Center(c: Circle): Point
  {
    Point(c.cx, c.cy)
  }
}
