/**
 * Mutation: a row whose roll is below mutation_rate gets one gene nudged by
 * a Gaussian step whose standard deviation is 5% of that gene's range; then
 * every gene of every row is clipped into its range.
 */
module Mutation {
  import opened Circles

  const SpreadFactor: real := 0.05

  /** numpy's clip: minimum(maximum(v, lo), hi). */
  function Clip(v: real, rg: Range): (c: real)
    ensures rg.lo <= rg.hi ==> Contains(rg, c)
    ensures Contains(rg, v) ==> c == v
  {
    var m := if v < rg.lo then rg.lo else v;
    if m > rg.hi then rg.hi else m
  }

  /** The three column clips applied to one row. */
  function ClipRow(c: Circle, b: Bounds): (d: Circle)
    ensures WellFormed(b) ==> InBounds(d, b)
    ensures forall j :: 0 <= j < 3 ==> Genes(d)[j] == Clip(Genes(c)[j], RangeOf(b, j))
  {
    Circle(Clip(c.cx, b.xRange), Clip(c.cy, b.yRange), Clip(c.r, b.rRange))
  }

  /** Standard deviation of the step for a gene with range rg. */
  function Spread(rg: Range): real
  {
    (rg.hi - rg.lo) * SpreadFactor
  }

  /**
   * The gene position a draw of randint(0, 3) selects: 0 is cx, 1 is cy and
   * anything else falls to the radius branch.
   */
  function GenePosition(gene: nat): nat
  {
    if gene <= 1 then gene else 2
  }

  /**
   * Row after the optional nudge and before clipping. `z` is a standard
   * normal draw, so the step normal(0, spread) is spread * z. A row whose
   * roll is not below the rate is untouched; otherwise every gene except the
   * selected one keeps its value.
   */
  function MutateRow(c: Circle, roll: real, gene: nat, z: real, rate: real, b: Bounds): (m: Circle)
    ensures !(roll < rate) ==> m == c
    ensures forall j :: 0 <= j < 3 && j != GenePosition(gene) ==> Genes(m)[j] == Genes(c)[j]
  {
    if roll < rate then
      if gene == 0 then c.(cx := c.cx + z * Spread(b.xRange))
      else if gene == 1 then c.(cy := c.cy + z * Spread(b.yRange))
      else c.(r := c.r + z * Spread(b.rRange))
    else c
  }

  /** The draws fit the rows: one roll, one gene and one normal draw per row. */
  predicate DrawsFor(rows: seq<Circle>, rolls: seq<real>, genes: seq<nat>, noise: seq<real>)
  {
    |rolls| == |rows| && |genes| == |rows| && |noise| == |rows|
  }

  /** The offspring after the mutation loop and the three clips. */
  function Mutated(rows: seq<Circle>, rolls: seq<real>, genes: seq<nat>, noise: seq<real>, rate: real, b: Bounds): (m: seq<Circle>)
    requires DrawsFor(rows, rolls, genes, noise)
    ensures |m| == |rows|
  {
    seq(|rows|, i requires 0 <= i < |rows| => ClipRow(MutateRow(rows[i], rolls[i], genes[i], noise[i], rate, b), b))
  }

  /** Clipping twice is clipping once, whatever the range. */
  lemma ClipIdempotent(v: real, rg: Range)
    ensures Clip(Clip(v, rg), rg) == Clip(v, rg)
  {
  }

  lemma ClipRowIdempotent(c: Circle, b: Bounds)
    ensures ClipRow(ClipRow(c, b), b) == ClipRow(c, b)
  {
  }

  /** After _mutate every row is inside the bounds and the row count is unchanged. */
  lemma MutatedInBounds(rows: seq<Circle>, rolls: seq<real>, genes: seq<nat>, noise: seq<real>, rate: real, b: Bounds)
    requires DrawsFor(rows, rolls, genes, noise) && WellFormed(b)
    ensures |Mutated(rows, rolls, genes, noise, rate, b)| == |rows|
    ensures AllInBounds(Mutated(rows, rolls, genes, noise, rate, b), b)
  {
  }

  /**
   * A gene that was in range and was not the one mutated comes out of the
   * clip unchanged.
   */
  lemma UntouchedGeneKept(rows: seq<Circle>, rolls: seq<real>, genes: seq<nat>, noise: seq<real>, rate: real, b: Bounds, i: nat, j: nat)
    requires DrawsFor(rows, rolls, genes, noise) && i < |rows| && j < 3
    requires Contains(RangeOf(b, j), Genes(rows[i])[j])
    requires !(rolls[i] < rate) || GenePosition(genes[i]) != j
    ensures Genes(Mutated(rows, rolls, genes, noise, rate, b)[i])[j] == Genes(rows[i])[j]
  {
  }
}
