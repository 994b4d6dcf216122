/**
 * Single-point crossover over the three-gene vector. Parents are taken in
 * adjacent pairs (0 and 1, 2 and 3, ...); a pair is recombined when its roll
 * is below crossover_rate, with a cut at position 1 or 2, and copied through
 * otherwise.
 */
module Recombination {
  import opened Circles

  /** The row first[:cut] ++ second[cut:], for a cut at gene position 1 or 2. */
  function Splice(first: Circle, second: Circle, cut: nat): (child: Circle)
    requires 1 <= cut <= 2
    ensures Genes(child) == Genes(first)[..cut] + Genes(second)[cut..]
  {
    if cut == 1 then Circle(first.cx, second.cy, second.r)
    else Circle(first.cx, first.cy, second.r)
  }

  /** Every cut point is one of the two inner positions, as randint(1, 3) draws. */
  predicate ValidCuts(cuts: seq<nat>)
  {
    forall k :: 0 <= k < |cuts| ==> 1 <= cuts[k] <= 2
  }

  /**
   * The two children of one pair of parents: at every gene position they
   * hold the parents' two values, either in the parents' order or swapped.
   */
  function Children(parent1: Circle, parent2: Circle, roll: real, cut: nat, rate: real): (pair: (Circle, Circle))
    requires 1 <= cut <= 2
    ensures forall j :: 0 <= j < 3 ==>
              || (Genes(pair.0)[j] == Genes(parent1)[j] && Genes(pair.1)[j] == Genes(parent2)[j])
              || (Genes(pair.0)[j] == Genes(parent2)[j] && Genes(pair.1)[j] == Genes(parent1)[j])
  {
    if roll < rate then (Splice(parent1, parent2, cut), Splice(parent2, parent1, cut))
    else (parent1, parent2)
  }

  /** The draws fit the parents: an even number of rows, one roll and one cut per pair. */
  predicate Pairable(parents: seq<Circle>, rolls: seq<real>, cuts: seq<nat>)
  {
    |parents| % 2 == 0 && |rolls| == |parents| / 2 && |cuts| == |parents| / 2 && ValidCuts(cuts)
  }

  /** Row i of the offspring: a child of pair i / 2, each gene taken from one of that pair. */
  function ChildAt(parents: seq<Circle>, rolls: seq<real>, cuts: seq<nat>, rate: real, i: nat): (child: Circle)
    requires Pairable(parents, rolls, cuts) && i < |parents|
    ensures 2 * (i / 2) + 1 < |parents|
    ensures forall j :: 0 <= j < 3 ==>
              Genes(child)[j] == Genes(parents[2 * (i / 2)])[j] || Genes(child)[j] == Genes(parents[2 * (i / 2) + 1])[j]
  {
    var k := i / 2;
    assert i == 2 * k + i % 2;
    var pair := Children(parents[2 * k], parents[2 * k + 1], rolls[k], cuts[k], rate);
    if i % 2 == 0 then pair.0 else pair.1
  }

  /** The offspring buffer that the crossover fills. */
  function Offspring(parents: seq<Circle>, rolls: seq<real>, cuts: seq<nat>, rate: real): (off: seq<Circle>)
    requires Pairable(parents, rolls, cuts)
    ensures |off| == |parents|
  {
    seq(|parents|, i requires 0 <= i < |parents| => ChildAt(parents, rolls, cuts, rate, i))
  }

  /**
   * Pair k is spliced at cuts[k] when its roll is below the rate and copied
   * otherwise.
   */
  lemma OffspringOfPair(parents: seq<Circle>, rolls: seq<real>, cuts: seq<nat>, rate: real, k: nat)
    requires Pairable(parents, rolls, cuts) && k < |parents| / 2
    ensures var off := Offspring(parents, rolls, cuts, rate);
      && 2 * k + 1 < |off|
      && (rolls[k] < rate ==>
            && Genes(off[2 * k]) == Genes(parents[2 * k])[..cuts[k]] + Genes(parents[2 * k + 1])[cuts[k]..]
            && Genes(off[2 * k + 1]) == Genes(parents[2 * k + 1])[..cuts[k]] + Genes(parents[2 * k])[cuts[k]..])
      && (!(rolls[k] < rate) ==> off[2 * k] == parents[2 * k] && off[2 * k + 1] == parents[2 * k + 1])
  {
  }

  /**
   * At every gene position the two children of a pair hold the same two
   * values as their parents.
   */
  lemma GenesPreservedPerPosition(parents: seq<Circle>, rolls: seq<real>, cuts: seq<nat>, rate: real, k: nat, j: nat)
    requires Pairable(parents, rolls, cuts) && k < |parents| / 2 && j < 3
    ensures var off := Offspring(parents, rolls, cuts, rate);
      2 * k + 1 < |off|
      && multiset{Genes(off[2 * k])[j], Genes(off[2 * k + 1])[j]}
         == multiset{Genes(parents[2 * k])[j], Genes(parents[2 * k + 1])[j]}
  {
    var off := Offspring(parents, rolls, cuts, rate);
    assert (2 * k) / 2 == k && (2 * k + 1) / 2 == k;
    var pair := Children(parents[2 * k], parents[2 * k + 1], rolls[k], cuts[k], rate);
    assert off[2 * k] == pair.0 && off[2 * k + 1] == pair.1;
  }

  /** Crossover keeps every gene inside its range: no clamping is needed after it. */
  lemma OffspringInBounds(parents: seq<Circle>, rolls: seq<real>, cuts: seq<nat>, rate: real, b: Bounds)
    requires Pairable(parents, rolls, cuts) && AllInBounds(parents, b)
    ensures AllInBounds(Offspring(parents, rolls, cuts, rate), b)
  {
  }
}
