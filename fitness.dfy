/**
 * Fitness of a candidate: its radius plus ten times the total distance by
 * which points of the cloud lie outside it. Lower is better.
 */
module Fitness {
  import opened Circles

  /**
   * Euclidean distance between a point and a centre. Dafny has no square
   * root, so the distance is a parameter; no property of it is assumed.
   */
  type Distance = (Point, Point) -> real

  const PenaltyWeight: real := 10.0

  /**
   * Sum of (d - r) over the points whose distance d to the centre exceeds r.
   * Every term is positive, so the sum is never negative.
   */
  function Excess(points: seq<Point>, dist: Distance, c: Circle): (e: real)
    ensures e >= 0.0
  {
    if points == [] then 0.0
    else
      var d := dist(points[0], Center(c));
      (if d > c.r then d - c.r else 0.0) + Excess(points[1..], dist, c)
  }

  /** r plus the weighted penalty; the penalty never lowers the score below r. */
  function FitnessOf(points: seq<Point>, dist: Distance, c: Circle): (f: real)
    ensures f >= c.r
  {
    c.r + Excess(points, dist, c) * PenaltyWeight
  }

  /** One score per row of the population. */
  function FitnessAll(points: seq<Point>, dist: Distance, pop: seq<Circle>): (f: seq<real>)
    ensures |f| == |pop|
  {
    seq(|pop|, i requires 0 <= i < |pop| => FitnessOf(points, dist, pop[i]))
  }

  /** A point strictly outside the candidate circle. */
  predicate Outside(p: Point, dist: Distance, c: Circle)
  {
    dist(p, Center(c)) > c.r
  }

  /** The excess is zero exactly when no point lies strictly outside. */
  lemma {:induction false} ExcessZeroIffCovered(points: seq<Point>, dist: Distance, c: Circle)
    ensures Excess(points, dist, c) == 0.0 <==> forall i :: 0 <= i < |points| ==> !Outside(points[i], dist, c)
  {
    if points != [] {
      ExcessZeroIffCovered(points[1..], dist, c);
      assert forall i :: 1 <= i < |points| ==> points[i] == points[1..][i - 1];
    }
  }

  /** fitness == r exactly when the circle covers every point of the cloud. */
  lemma FitnessIsRadiusIffCovered(points: seq<Point>, dist: Distance, c: Circle)
    ensures FitnessOf(points, dist, c) == c.r <==> forall i :: 0 <= i < |points| ==> !Outside(points[i], dist, c)
  {
    ExcessZeroIffCovered(points, dist, c);
  }

  /** With every radius at least r_min >= 0, every score is non-negative. */
  lemma PopulationFitnessNonNegative(points: seq<Point>, dist: Distance, pop: seq<Circle>, b: Bounds)
    requires WellFormed(b) && AllInBounds(pop, b)
    ensures forall i :: 0 <= i < |pop| ==> FitnessAll(points, dist, pop)[i] >= pop[i].r >= 0.0
  {
    forall i | 0 <= i < |pop|
      ensures FitnessAll(points, dist, pop)[i] >= pop[i].r
    {
      assert FitnessAll(points, dist, pop)[i] == FitnessOf(points, dist, pop[i]);
    }
  }
}
