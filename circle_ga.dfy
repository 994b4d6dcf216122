/**
 * The optimiser object. Its configuration and gene ranges are fixed at
 * construction; `population` is the only field that changes, and run()
 * replaces it wholesale once per generation. Every random draw is an input.
 */
module GeneticAlgorithm {
  import opened Wrappers
  import opened Circles
  import opened CloudBounds
  import opened Fitness
  import opened Selection
  import opened Recombination
  import opened Mutation
  import opened Evolution

  /** Draws of np.random.uniform for each column, each inside its range. */
  predicate UniformDraws(xs: seq<real>, ys: seq<real>, rs: seq<real>, n: nat, b: Bounds)
  {
    && |xs| == n && |ys| == n && |rs| == n
    && (forall i :: 0 <= i < n ==> Contains(b.xRange, xs[i]))
    && (forall i :: 0 <= i < n ==> Contains(b.yRange, ys[i]))
    && (forall i :: 0 <= i < n ==> Contains(b.rRange, rs[i]))
  }

  class CircleGA {
    const points: seq<Point>
    const populationSize: nat
    const mutationRate: real
    const crossoverRate: real
    const generations: nat
    const dist: Distance
    const xRange: Range
    const yRange: Range
    const rRange: Range
    var population: array<Circle>

    function Limits(): Bounds
    {
      Bounds(xRange, yRange, rRange)
    }

    function Parameters(): Params
    {
      Params(points, dist, Limits(), mutationRate, crossoverRate)
    }

    /**
     * The object invariant: the ranges are those of the cloud and the
     * population has population_size rows, all inside them.
     */
    ghost predicate Valid()
      reads this, population
    {
      && |points| > 0
      && Limits() == DeriveBounds(points)
      && population.Length == populationSize
      && AllInBounds(population[..], Limits())
    }

    /** __init__: derive the ranges from the cloud, then draw the first population. */
    constructor (points: seq<Point>, populationSize: nat, mutationRate: real, crossoverRate: real,
                 generations: nat, dist: Distance, xs: seq<real>, ys: seq<real>, rs: seq<real>)
      requires |points| > 0
      requires UniformDraws(xs, ys, rs, populationSize, DeriveBounds(points))
      ensures Valid()
      ensures this.points == points && this.populationSize == populationSize
      ensures this.mutationRate == mutationRate && this.crossoverRate == crossoverRate
      ensures this.generations == generations && this.dist == dist
      ensures forall i :: 0 <= i < populationSize ==> population[i] == Circle(xs[i], ys[i], rs[i])
    {
      this.points := points;
      this.populationSize := populationSize;
      this.mutationRate := mutationRate;
      this.crossoverRate := crossoverRate;
      this.generations := generations;
      this.dist := dist;
      var b := DeriveBounds(points);
      xRange, yRange, rRange := b.xRange, b.yRange, b.rRange;
      new;
      population := InitializePopulation(xs, ys, rs);
    }

    /** _initialize_population: row i is (xs[i], ys[i], rs[i]); every row is inside the ranges. */
    method InitializePopulation(xs: seq<real>, ys: seq<real>, rs: seq<real>) returns (pop: array<Circle>)
      requires UniformDraws(xs, ys, rs, populationSize, Limits())
      ensures pop.Length == populationSize
      ensures forall i :: 0 <= i < populationSize ==> pop[i] == Circle(xs[i], ys[i], rs[i])
      ensures AllInBounds(pop[..], Limits())
    {
      pop := new Circle[populationSize](i requires 0 <= i < populationSize => Circle(xs[i], ys[i], rs[i]));
    }

    /** _calculate_fitness: one score per row, r plus ten times the excess distance. */
    method CalculateFitness() returns (fitness: array<real>)
      requires population.Length == populationSize
      ensures fitness.Length == populationSize
      ensures fitness[..] == FitnessAll(points, dist, population[..])
    {
      fitness := new real[populationSize](_ => 0.0);
      var i := 0;
      while i < population.Length
        invariant 0 <= i <= population.Length
        invariant forall j :: 0 <= j < i ==> fitness[j] == FitnessOf(points, dist, population[j])
      {
        var individual := population[i];
        var penalty := Excess(points, dist, individual) * PenaltyWeight;
        fitness[i] := individual.r + penalty;
        i := i + 1;
      }
    }

    /**
     * _crossover: fills a fresh offspring buffer pair by pair; pair k uses
     * rolls[k] and, when it is below crossover_rate, the cut cuts[k].
     */
    method Crossover(parents: seq<Circle>, rolls: seq<real>, cuts: seq<nat>) returns (offspring: array<Circle>)
      requires |parents| == populationSize && Pairable(parents, rolls, cuts)
      ensures fresh(offspring)
      ensures offspring[..] == Offspring(parents, rolls, cuts, crossoverRate)
    {
      offspring := new Circle[|parents|](_ => Circle(0.0, 0.0, 0.0));
      var i := 0;
      while i < populationSize
        invariant 0 <= i <= populationSize && i % 2 == 0
        invariant forall j :: 0 <= j < i ==> offspring[j] == ChildAt(parents, rolls, cuts, crossoverRate, j)
      {
        var parent1, parent2 := parents[i], parents[i + 1];
        assert i / 2 == (i + 1) / 2 && i % 2 == 0 && (i + 1) % 2 == 1;
        if rolls[i / 2] < crossoverRate {
          var cut := cuts[i / 2];
          offspring[i] := Splice(parent1, parent2, cut);
          offspring[i + 1] := Splice(parent2, parent1, cut);
        } else {
          offspring[i], offspring[i + 1] := parent1, parent2;
        }
        i := i + 2;
      }
    }

    /**
     * _mutate: nudges at most one gene of each row whose roll is below
     * mutation_rate, then clips the three columns in place.
     */
    method Mutate(offspring: array<Circle>, rolls: seq<real>, genes: seq<nat>, noise: seq<real>)
      requires DrawsFor(offspring[..], rolls, genes, noise)
      modifies offspring
      ensures offspring[..] == Mutated(old(offspring[..]), rolls, genes, noise, mutationRate, Limits())
    {
      var i := 0;
      while i < offspring.Length
        invariant 0 <= i <= offspring.Length
        invariant forall j :: 0 <= j < i ==>
                    offspring[j] == MutateRow(old(offspring[j]), rolls[j], genes[j], noise[j], mutationRate, Limits())
        invariant forall j :: i <= j < offspring.Length ==> offspring[j] == old(offspring[j])
      {
        if rolls[i] < mutationRate {
          var gene := genes[i];
          if gene == 0 {
            var mutationValue := noise[i] * Spread(xRange);
            offspring[i] := offspring[i].(cx := offspring[i].cx + mutationValue);
          } else if gene == 1 {
            var mutationValue := noise[i] * Spread(yRange);
            offspring[i] := offspring[i].(cy := offspring[i].cy + mutationValue);
          } else {
            var mutationValue := noise[i] * Spread(rRange);
            offspring[i] := offspring[i].(r := offspring[i].r + mutationValue);
          }
        }
        i := i + 1;
      }
      forall j | 0 <= j < offspring.Length {
        offspring[j] := offspring[j].(cx := Clip(offspring[j].cx, xRange));
      }
      forall j | 0 <= j < offspring.Length {
        offspring[j] := offspring[j].(cy := Clip(offspring[j].cy, yRange));
      }
      forall j | 0 <= j < offspring.Length {
        offspring[j] := offspring[j].(r := Clip(offspring[j].r, rRange));
      }
    }

    /**
     * One pass of run's loop body: score the population, update the best so
     * far, then select, recombine and mutate into the next population.
     */
    method Generation(d: Draws, best: Tracker) returns (next: Tracker)
      requires Valid()
      requires WellFormedDraws(d, populationSize) && populationSize > 0 && populationSize % 2 == 0
      modifies this
      ensures Valid()
      ensures population[..] == Step(Parameters(), old(population[..]), d)
      ensures next == Track(best, old(population[..]), FitnessAll(points, dist, old(population[..])))
    {
      ghost var pop := population[..];
      var fitness := CalculateFitness();
      var bestIdx := ArgMin(fitness[..]);
      next := best;
      if best.NoBest? || fitness[bestIdx] < best.fitness {
        next := Best(fitness[bestIdx], population[bestIdx]);
      }
      SelectionAccepts(Parameters(), pop);
      var parents := Select(population[..], fitness[..], d.picks).value;
      var offspring := Crossover(parents, d.crossRolls, d.cuts);
      Mutate(offspring, d.mutationRolls, d.genes, d.noise);
      population := offspring;
    }

    /**
     * run: one generation per element of `draws`. The population after the
     * call and the individual returned are those of Evolve; nothing is
     * returned exactly when there are no generations.
     */
    method Run(draws: seq<Draws>) returns (bestIndividual: Option<Circle>)
      requires Valid()
      requires |draws| == generations && DrawsFit(draws, populationSize)
      requires generations > 0 ==> populationSize > 0 && populationSize % 2 == 0
      modifies this
      ensures Valid()
      ensures var final := Evolve(Parameters(), NoBest, old(population[..]), draws);
        && population[..] == final.population
        && bestIndividual == (if final.best.Best? then Some(final.best.individual) else None)
      ensures bestIndividual.None? <==> generations == 0
    {
      ghost var start := population[..];
      var best := NoBest;
      var generation := 0;
      while generation < generations
        invariant 0 <= generation <= generations
        invariant Valid()
        invariant Runnable(Parameters(), population[..], draws[generation..])
        invariant Evolve(Parameters(), best, population[..], draws[generation..])
                  == Evolve(Parameters(), NoBest, start, draws)
      {
        ghost var pop, previous := population[..], best;
        best := Generation(draws[generation], best);
        EvolveUnfold(Parameters(), previous, pop, draws[generation..]);
        assert draws[generation..][1..] == draws[generation + 1..];
        generation := generation + 1;
      }
      bestIndividual := if best.Best? then Some(best.individual) else None;
    }
  }
}
