/**
 * Roulette-wheel selection: scores are inverted into weights
 * 1 / (f + 1e-6), normalised into probabilities, and population_size rows
 * are drawn with replacement. The draws themselves are an input (the picked
 * indices); what is modelled is which rows can be returned and when the
 * probabilities are acceptable to the sampler.
 */
module Selection {
  import opened Circles
  import opened Wrappers

  /** Guard added to every score before it is inverted. */
  const Epsilon: real := 0.000001

  /** The sampler rejects probabilities that are not all non-negative and summing to one. */
  datatype SelectionError = InvalidProbabilities

  function Sum(s: seq<real>): real
  {
    if s == [] then 0.0 else s[0] + Sum(s[1..])
  }

  /**
   * The condition under which the sampler takes the normalised weights: a
   * non-empty population whose shifted scores f + 1e-6 are all non-zero and
   * of one sign. A zero makes a weight infinite and the probabilities NaN;
   * an empty vector sums to zero. For the remaining case, non-zero shifted
   * scores, AcceptedIffValid shows that this is exactly when the
   * probabilities are non-negative and sum to one.
   */
  predicate ValidFitness(fitness: seq<real>)
  {
    && |fitness| > 0
    && ((forall i :: 0 <= i < |fitness| ==> fitness[i] + Epsilon > 0.0)
        || (forall i :: 0 <= i < |fitness| ==> fitness[i] + Epsilon < 0.0))
  }

  /** inverted_fitness: each weight is the reciprocal of its shifted score. */
  function Weights(fitness: seq<real>): (w: seq<real>)
    requires forall i :: 0 <= i < |fitness| ==> fitness[i] + Epsilon != 0.0
    ensures |w| == |fitness|
    ensures forall i :: 0 <= i < |w| ==> w[i] * (fitness[i] + Epsilon) == 1.0
  {
    seq(|fitness|, i requires 0 <= i < |fitness| => 1.0 / (fitness[i] + Epsilon))
  }

  lemma {:induction false} SumPositive(s: seq<real>)
    requires |s| > 0 && forall i :: 0 <= i < |s| ==> s[i] > 0.0
    ensures Sum(s) > 0.0
  {
    if |s| > 1 {
      assert forall i :: 0 <= i < |s| - 1 ==> s[1..][i] == s[i + 1];
      SumPositive(s[1..]);
    }
  }

  lemma {:induction false} SumNegative(s: seq<real>)
    requires |s| > 0 && forall i :: 0 <= i < |s| ==> s[i] < 0.0
    ensures Sum(s) < 0.0
  {
    if |s| > 1 {
      assert forall i :: 0 <= i < |s| - 1 ==> s[1..][i] == s[i + 1];
      SumNegative(s[1..]);
    }
  }

  /** Weights that all share one sign have a total of that sign. */
  lemma WeightsSign(fitness: seq<real>)
    requires ValidFitness(fitness)
    ensures var w := Weights(fitness);
      (Sum(w) > 0.0 && forall i :: 0 <= i < |w| ==> w[i] > 0.0)
      || (Sum(w) < 0.0 && forall i :: 0 <= i < |w| ==> w[i] < 0.0)
  {
    var w := Weights(fitness);
    if forall i :: 0 <= i < |fitness| ==> fitness[i] + Epsilon > 0.0 {
      SumPositive(w);
    } else {
      SumNegative(w);
    }
  }

  function Scaled(s: seq<real>, total: real): (p: seq<real>)
    requires total != 0.0
    ensures |p| == |s|
  {
    seq(|s|, i requires 0 <= i < |s| => s[i] / total)
  }

  lemma {:induction false} SumScaled(s: seq<real>, total: real)
    requires total != 0.0
    ensures Sum(Scaled(s, total)) == Sum(s) / total
  {
    if s != [] {
      assert Scaled(s, total)[1..] == Scaled(s[1..], total);
      SumScaled(s[1..], total);
    }
  }

  /**
   * probabilities = inverted_fitness / sum(inverted_fitness): for valid
   * scores every probability is positive and they sum to one.
   */
  function Probabilities(fitness: seq<real>): (p: seq<real>)
    requires ValidFitness(fitness)
    ensures |p| == |fitness|
    ensures forall i :: 0 <= i < |p| ==> p[i] > 0.0
    ensures Sum(p) == 1.0
  {
    WeightsSign(fitness);
    SumScaled(Weights(fitness), Sum(Weights(fitness)));
    Scaled(Weights(fitness), Sum(Weights(fitness)))
  }

  /** What np.random.choice checks of p: no negative entry, and a sum of one. */
  predicate Acceptable(p: seq<real>)
  {
    (forall i :: 0 <= i < |p| ==> p[i] >= 0.0) && Sum(p) == 1.0
  }

  /** A weight has the sign of its shifted score. */
  lemma WeightSign(w: real, shifted: real)
    requires w * shifted == 1.0
    ensures w < 0.0 <==> shifted < 0.0
    ensures w > 0.0 <==> shifted > 0.0
  {
  }

  /**
   * Shifted scores of mixed signs are rejected: either the weights sum to
   * zero or some normalised probability is negative.
   */
  lemma MixedSignsRejected(fitness: seq<real>)
    requires |fitness| > 0 && forall i :: 0 <= i < |fitness| ==> fitness[i] + Epsilon != 0.0
    requires !ValidFitness(fitness)
    ensures var w := Weights(fitness);
      Sum(w) == 0.0 || exists i :: 0 <= i < |w| && Scaled(w, Sum(w))[i] < 0.0
  {
    var w := Weights(fitness);
    var i :| 0 <= i < |fitness| && fitness[i] + Epsilon < 0.0;
    var j :| 0 <= j < |fitness| && fitness[j] + Epsilon > 0.0;
    WeightSign(w[i], fitness[i] + Epsilon);
    WeightSign(w[j], fitness[j] + Epsilon);
    var total := Sum(w);
    if total > 0.0 {
      assert Scaled(w, total)[i] == w[i] / total;
    } else if total < 0.0 {
      assert Scaled(w, total)[j] == w[j] / total;
    }
  }

  /**
   * For a non-empty vector of non-zero shifted scores, the normalised weights
   * are accepted by the sampler if and only if ValidFitness holds.
   */
  lemma AcceptedIffValid(fitness: seq<real>)
    requires |fitness| > 0 && forall i :: 0 <= i < |fitness| ==> fitness[i] + Epsilon != 0.0
    ensures var w := Weights(fitness);
      ValidFitness(fitness) <==> Sum(w) != 0.0 && Acceptable(Scaled(w, Sum(w)))
  {
    var w := Weights(fitness);
    if ValidFitness(fitness) {
      WeightsSign(fitness);
      assert Probabilities(fitness) == Scaled(w, Sum(w));
    } else {
      MixedSignsRejected(fitness);
    }
  }

  /**
   * population[selected_indices]: `picks` are the indices the sampler drew,
   * one per output row, each an index of the population.
   */
  function Select(population: seq<Circle>, fitness: seq<real>, picks: seq<nat>): (r: Result<seq<Circle>, SelectionError>)
    requires |fitness| == |population| && |picks| == |population|
    requires forall k :: 0 <= k < |picks| ==> picks[k] < |population|
    ensures r.Success? <==> ValidFitness(fitness)
    ensures r.Success? ==> |r.value| == |population|
    ensures r.Success? ==> forall k :: 0 <= k < |r.value| ==> r.value[k] in population
  {
    if !ValidFitness(fitness) then Failure(InvalidProbabilities)
    else Success(seq(|picks|, k requires 0 <= k < |picks| => population[picks[k]]))
  }
}
