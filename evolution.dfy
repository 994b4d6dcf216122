/**
 * The generational loop of run() as a function of its inputs: evaluate,
 * track the best so far, select, cross over, mutate, replace. The class
 * CircleGA runs this loop imperatively and is proved to agree with Evolve.
 */
module Evolution {
  import opened Circles
  import opened Fitness
  import opened Selection
  import opened Recombination
  import opened Mutation

  /**
   * best_fitness_overall and best_individual_overall taken together: NoBest
   * is their start value (infinity, None); afterwards both are set at once.
   */
  datatype Tracker = NoBest | Best(fitness: real, individual: Circle)

  /** The random draws one generation consumes. */
  datatype Draws = Draws(
    picks: seq<nat>,            // np.random.choice: population_size indices
    crossRolls: seq<real>,      // np.random.rand per pair
    cuts: seq<nat>,             // np.random.randint(1, 3) per pair
    mutationRolls: seq<real>,   // np.random.rand per row
    genes: seq<nat>,            // np.random.randint(0, 3) per row
    noise: seq<real>)           // standard normal deviate per row

  predicate WellFormedDraws(d: Draws, n: nat)
  {
    && |d.picks| == n && (forall k :: 0 <= k < |d.picks| ==> d.picks[k] < n)
    && |d.crossRolls| == n / 2 && |d.cuts| == n / 2 && ValidCuts(d.cuts)
    && |d.mutationRolls| == n && |d.genes| == n && |d.noise| == n
  }

  predicate DrawsFit(draws: seq<Draws>, n: nat)
  {
    forall g :: 0 <= g < |draws| ==> WellFormedDraws(draws[g], n)
  }

  /** What a generation reads from the optimiser besides its population. */
  datatype Params = Params(points: seq<Point>, dist: Distance, bounds: Bounds, mutationRate: real, crossoverRate: real)

  /** The state run() carries from one generation to the next. */
  datatype State = State(best: Tracker, population: seq<Circle>)

  /** np.argmin: the first index of a minimum. */
  function ArgMin(s: seq<real>): (k: nat)
    requires |s| > 0
    ensures k < |s|
    ensures forall j :: 0 <= j < |s| ==> s[k] <= s[j]
    ensures forall j :: 0 <= j < k ==> s[j] > s[k]
  {
    if |s| == 1 then 0
    else
      var k := ArgMin(s[..|s| - 1]);
      if s[|s| - 1] < s[k] then |s| - 1 else k
  }

  /**
   * The best-so-far update of one generation. The result never exceeds the
   * previous best nor any score of this generation; it replaces the previous
   * best only by the first argmin row, and only on strict improvement.
   */
  function Track(best: Tracker, pop: seq<Circle>, fitness: seq<real>): (next: Tracker)
    requires |pop| == |fitness| > 0
    ensures next.Best?
    ensures forall j :: 0 <= j < |fitness| ==> next.fitness <= fitness[j]
    ensures best.Best? ==> next.fitness <= best.fitness
    ensures next != best ==>
              && next.fitness == fitness[ArgMin(fitness)]
              && next.individual == pop[ArgMin(fitness)]
              && (best.Best? ==> next.fitness < best.fitness)
    ensures best.Best? && (forall j :: 0 <= j < |fitness| ==> best.fitness <= fitness[j]) ==> next == best
  {
    var i := ArgMin(fitness);
    if best.NoBest? || fitness[i] < best.fitness then Best(fitness[i], pop[i]) else best
  }

  /** A population and the draws for the generations still to run fit together. */
  predicate Runnable(p: Params, pop: seq<Circle>, draws: seq<Draws>)
  {
    && WellFormed(p.bounds)
    && AllInBounds(pop, p.bounds)
    && DrawsFit(draws, |pop|)
    && (draws != [] ==> |pop| > 0 && |pop| % 2 == 0)
  }

  /** The selection of a population that is inside the bounds never fails. */
  lemma SelectionAccepts(p: Params, pop: seq<Circle>)
    requires WellFormed(p.bounds) && AllInBounds(pop, p.bounds) && |pop| > 0
    ensures ValidFitness(FitnessAll(p.points, p.dist, pop))
  {
    PopulationFitnessNonNegative(p.points, p.dist, pop, p.bounds);
  }

  /** The next population: selection, crossover and mutation of this one. */
  function Step(p: Params, pop: seq<Circle>, d: Draws): (next: seq<Circle>)
    requires WellFormed(p.bounds) && AllInBounds(pop, p.bounds)
    requires |pop| > 0 && |pop| % 2 == 0 && WellFormedDraws(d, |pop|)
    ensures |next| == |pop| && AllInBounds(next, p.bounds)
  {
    var fitness := FitnessAll(p.points, p.dist, pop);
    SelectionAccepts(p, pop);
    var parents := Select(pop, fitness, d.picks).value;
    var offspring := Offspring(parents, d.crossRolls, d.cuts, p.crossoverRate);
    Mutated(offspring, d.mutationRolls, d.genes, d.noise, p.mutationRate, p.bounds)
  }

  /**
   * The state after running one generation per element of `draws`. The
   * population keeps its size and stays inside the bounds, a best individual
   * exists after the first generation, and the best fitness never increases.
   */
  function Evolve(p: Params, best: Tracker, pop: seq<Circle>, draws: seq<Draws>): (final: State)
    requires Runnable(p, pop, draws)
    ensures |final.population| == |pop| && AllInBounds(final.population, p.bounds)
    ensures final.best.NoBest? <==> best.NoBest? && draws == []
    ensures best.Best? ==> final.best.fitness <= best.fitness
    decreases |draws|
  {
    if draws == [] then State(best, pop)
    else
      var next := Track(best, pop, FitnessAll(p.points, p.dist, pop));
      Evolve(p, next, Step(p, pop, draws[0]), draws[1..])
  }

  /** Running the first generation and then the rest is running them all. */
  lemma EvolveUnfold(p: Params, best: Tracker, pop: seq<Circle>, draws: seq<Draws>)
    requires Runnable(p, pop, draws) && draws != []
    ensures Runnable(p, Step(p, pop, draws[0]), draws[1..])
    ensures Evolve(p, best, pop, draws)
            == Evolve(p, Track(best, pop, FitnessAll(p.points, p.dist, pop)), Step(p, pop, draws[0]), draws[1..])
  {
  }

  /** The population evaluated in each generation, in order. */
  function Evaluated(p: Params, pop: seq<Circle>, draws: seq<Draws>): (gens: seq<seq<Circle>>)
    requires Runnable(p, pop, draws)
    ensures |gens| == |draws|
    decreases |draws|
  {
    if draws == [] then []
    else [pop] + Evaluated(p, Step(p, pop, draws[0]), draws[1..])
  }

  /**
   * The best-so-far fitness after each generation. run() does not record
   * or return this sequence; it is the trajectory of best_fitness_overall.
   */
  function BestHistory(p: Params, best: Tracker, pop: seq<Circle>, draws: seq<Draws>): (h: seq<real>)
    requires Runnable(p, pop, draws)
    ensures |h| == |draws|
    decreases |draws|
  {
    if draws == [] then []
    else
      var next := Track(best, pop, FitnessAll(p.points, p.dist, pop));
      [next.fitness] + BestHistory(p, next, Step(p, pop, draws[0]), draws[1..])
  }

  /** The last best-so-far fitness is the fitness of the best run() reports. */
  lemma {:induction false} BestHistoryLast(p: Params, best: Tracker, pop: seq<Circle>, draws: seq<Draws>)
    requires Runnable(p, pop, draws) && draws != []
    ensures var h := BestHistory(p, best, pop, draws);
      h[|h| - 1] == Evolve(p, best, pop, draws).best.fitness
    decreases |draws|
  {
    var next := Track(best, pop, FitnessAll(p.points, p.dist, pop));
    var pop' := Step(p, pop, draws[0]);
    EvolveUnfold(p, best, pop, draws);
    var h := BestHistory(p, best, pop, draws);
    var t := BestHistory(p, next, pop', draws[1..]);
    assert h == [next.fitness] + t;
    if draws[1..] != [] {
      BestHistoryLast(p, next, pop', draws[1..]);
      assert h[|h| - 1] == t[|t| - 1];
    }
  }

  /**
   * The best-so-far fitness is non-increasing over the generations, never
   * above the best it started from, and ends at the fitness run() reports.
   */
  lemma {:induction false} BestHistoryNonIncreasing(p: Params, best: Tracker, pop: seq<Circle>, draws: seq<Draws>)
    requires Runnable(p, pop, draws)
    ensures var h := BestHistory(p, best, pop, draws);
      && (forall i, j :: 0 <= i <= j < |h| ==> h[j] <= h[i])
      && (best.Best? ==> forall i :: 0 <= i < |h| ==> h[i] <= best.fitness)
      && (draws != [] ==> h[|h| - 1] == Evolve(p, best, pop, draws).best.fitness)
    decreases |draws|
  {
    if draws != [] {
      var next := Track(best, pop, FitnessAll(p.points, p.dist, pop));
      var pop' := Step(p, pop, draws[0]);
      BestHistoryNonIncreasing(p, next, pop', draws[1..]);
      var h := BestHistory(p, best, pop, draws);
      var t := BestHistory(p, next, pop', draws[1..]);
      assert h == [next.fitness] + t;
      assert forall i :: 1 <= i < |h| ==> h[i] == t[i - 1];
      BestHistoryLast(p, best, pop, draws);
    }
  }

  /**
   * The best-so-far updates of run(), applied to a list of evaluated
   * populations in order. The fold never raises the best fitness, and the
   * best is set once one population has been seen.
   */
  function TrackAll(points: seq<Point>, dist: Distance, best: Tracker, gens: seq<seq<Circle>>): (final: Tracker)
    requires forall g :: 0 <= g < |gens| ==> |gens[g]| > 0
    ensures best.Best? || gens != [] ==> final.Best?
    ensures best.Best? ==> final.fitness <= best.fitness
    decreases |gens|
  {
    if gens == [] then best
    else TrackAll(points, dist, Track(best, gens[0], FitnessAll(points, dist, gens[0])), gens[1..])
  }

  /** The best individual run() reports is the best-so-far fold over the evaluated populations. */
  lemma {:induction false} EvolveTracksEvaluated(p: Params, best: Tracker, pop: seq<Circle>, draws: seq<Draws>)
    requires Runnable(p, pop, draws)
    ensures forall g :: 0 <= g < |Evaluated(p, pop, draws)| ==> |Evaluated(p, pop, draws)[g]| == |pop|
    ensures draws != [] ==> Evolve(p, best, pop, draws).best == TrackAll(p.points, p.dist, best, Evaluated(p, pop, draws))
    decreases |draws|
  {
    if draws != [] {
      var next := Track(best, pop, FitnessAll(p.points, p.dist, pop));
      var pop' := Step(p, pop, draws[0]);
      var rest := Evaluated(p, pop', draws[1..]);
      var gens := Evaluated(p, pop, draws);
      EvolveTracksEvaluated(p, next, pop', draws[1..]);
      assert gens == [pop] + rest;
      assert gens[1..] == rest;
      assert forall g :: 1 <= g < |gens| ==> gens[g] == rest[g - 1];
      if draws[1..] == [] {
        assert rest == [];
      }
    }
  }

  /** No row of any population in the list scores below the final best. */
  lemma {:induction false} TrackAllBeats(points: seq<Point>, dist: Distance, best: Tracker, gens: seq<seq<Circle>>, g: nat, i: nat)
    requires forall h :: 0 <= h < |gens| ==> |gens[h]| > 0
    requires g < |gens| && i < |gens[g]|
    ensures TrackAll(points, dist, best, gens).Best?
    ensures TrackAll(points, dist, best, gens).fitness <= FitnessOf(points, dist, gens[g][i])
    decreases g
  {
    var fitness := FitnessAll(points, dist, gens[0]);
    var next := Track(best, gens[0], fitness);
    if g == 0 {
      assert fitness[i] == FitnessOf(points, dist, gens[0][i]);
    } else {
      assert gens[g] == gens[1..][g - 1];
      TrackAllBeats(points, dist, next, gens[1..], g - 1, i);
    }
  }

  /** Row i of population g, reported with its own fitness. */
  predicate ScoredRow(points: seq<Point>, dist: Distance, gens: seq<seq<Circle>>, b: Tracker, g: int, i: int)
  {
    0 <= g < |gens| && 0 <= i < |gens[g]| && b == Best(FitnessOf(points, dist, gens[g][i]), gens[g][i])
  }

  /** The final best is the starting one or some row of the list with its own fitness. */
  lemma {:induction false} TrackAllFromRows(points: seq<Point>, dist: Distance, best: Tracker, gens: seq<seq<Circle>>)
    requires forall h :: 0 <= h < |gens| ==> |gens[h]| > 0
    ensures var final := TrackAll(points, dist, best, gens);
      final == best || exists g, i :: ScoredRow(points, dist, gens, final, g, i)
    decreases |gens|
  {
    if gens != [] {
      var fitness := FitnessAll(points, dist, gens[0]);
      var next := Track(best, gens[0], fitness);
      var final := TrackAll(points, dist, next, gens[1..]);
      TrackAllFromRows(points, dist, next, gens[1..]);
      if final == next {
        if next != best {
          assert ScoredRow(points, dist, gens, final, 0, ArgMin(fitness));
        }
      } else {
        var g, i :| ScoredRow(points, dist, gens[1..], final, g, i);
        assert gens[g + 1] == gens[1..][g];
        assert ScoredRow(points, dist, gens, final, g + 1, i);
      }
    }
  }

  /**
   * After at least one generation, no row of any evaluated population scores
   * below the reported best, and the reported individual is a row of some
   * evaluated population, reported with that row's own fitness.
   */
  lemma BestIsBestEvaluated(p: Params, pop: seq<Circle>, draws: seq<Draws>)
    requires Runnable(p, pop, draws) && draws != []
    ensures var final := Evolve(p, NoBest, pop, draws);
      var gens := Evaluated(p, pop, draws);
      && final.best.Best?
      && (forall g, i :: 0 <= g < |gens| && 0 <= i < |gens[g]| ==>
            final.best.fitness <= FitnessOf(p.points, p.dist, gens[g][i]))
      && exists g, i :: ScoredRow(p.points, p.dist, gens, final.best, g, i)
  {
    var gens := Evaluated(p, pop, draws);
    EvolveTracksEvaluated(p, NoBest, pop, draws);
    forall g, i | 0 <= g < |gens| && 0 <= i < |gens[g]|
      ensures TrackAll(p.points, p.dist, NoBest, gens).fitness <= FitnessOf(p.points, p.dist, gens[g][i])
    {
      TrackAllBeats(p.points, p.dist, NoBest, gens, g, i);
    }
    TrackAllFromRows(p.points, p.dist, NoBest, gens);
  }
}
