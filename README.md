# CircleGA: a verified model of the circle-fitting genetic algorithm

This project models `CircleGA`, a generational genetic algorithm from `src/genetic_algorithm.py`. It searches for a small circle `(cx, cy, r)` that encloses a 2D point cloud. Each individual is one row of the population. The algorithm works in these steps:

- **Constructor.** It derives three gene ranges from the cloud's bounding box. It then draws the first population uniformly inside them.
- **Fitness.** Each candidate scores `r + 10 * sum(d - r)`, summed over the points whose distance `d` from the centre is greater than `r`. Lower is better.
- **Selection.** Parents are drawn with replacement. Each row's weight is `1 / (f + 1e-6)`.
- **Crossover.** Adjacent pairs get single-point crossover at cut 1 or 2, or are copied through.
- **Mutation.** One gene of a row may get a Gaussian nudge. Every column is then clipped back into its range.
- **Run loop.** `run` repeats these steps for `generations` rounds. It keeps the best individual seen so far, updating it only on strict improvement.

Modules:

| file | module | contents |
|---|---|---|
| `circles.dfy` | `Circles` | points, circles, ranges, the bounds predicates, gene vectors |
| `cloud_bounds.dfy` | `CloudBounds` | deriving x/y/r ranges from the cloud |
| `fitness.dfy` | `Fitness` | the penalty score, the distance parameter |
| `selection.dfy` | `Selection` | weights, probabilities, roulette pick |
| `recombination.dfy` | `Recombination` | single-point crossover |
| `mutation.dfy` | `Mutation` | nudge and clip |
| `evolution.dfy` | `Evolution` | one generation (`Step`) and the whole run (`Evolve`) as functions, with best-so-far lemmas |
| `circle_ga.dfy` | `GeneticAlgorithm` | class `CircleGA`: array-based methods proved against the functions above |
| `wrappers.dfy` | `Wrappers` | `Option`, `Result` |

How the model is built:

- **Class `CircleGA`.**
  - Its configuration and ranges are `const` fields.
  - `population` is an `array<Circle>` field, and `Run` reassigns it once per generation.
  - `CalculateFitness` fills a fresh score array in a loop.
  - `Crossover` fills a fresh offspring buffer two rows at a time.
  - `Mutate` nudges rows in place, then clips each column in place with an aggregate `forall` update. This matches the three `np.clip(..., out=...)` calls.
- **Pure parts are functions.** The bound derivation and `_select` become functions.
- **Randomness.** Every random draw is an explicit input:
  - uniform draws `xs`, `ys`, `rs` for the constructor;
  - for each generation, a `Draws` record with: the selected indices, one roll and one cut per pair, and one roll, one gene index and one standard normal deviate per row.
  - `np.random.normal(0, s)` is modelled as `s * z`, where `z` is a standard normal draw.
  Given these inputs, a run is deterministic.
- **Numbers and distance.**
  - Coordinates are `real`.
  - Euclidean distance is a parameter `dist: (Point, Point) -> real`, because Dafny has no square root. No property of `dist` is needed for any proof.

**What `run` returns.** `run` returns only `best_individual_overall` (`src/genetic_algorithm.py:145`). If `generations == 0` that is `None`. No per-generation history is recorded. `src/main.py:69` and `src/evaluation.py:30` unpack `best_circle, fitness_history = ga.run()`, but the code does not return one. The model follows the code:

- `CircleGA.Run` returns `Option<Circle>`, which is `None` exactly when `generations == 0`.
- `Evolution.BestHistory` is the trajectory of `best_fitness_overall`. It exists only to state monotonicity and is not something `run` returns.

**When sampling is accepted.** `np.random.choice` accepts any weight vector whose normalised entries are non-negative and sum to one. That includes the case where every `f + 1e-6` is negative. `Selection.ValidFitness` is that condition:

- for valid scores, `Selection.Probabilities` returns positive entries summing to one;
- for non-zero shifted scores of mixed signs, `Selection.MixedSignsRejected` shows that the weights sum to zero or some probability is negative, so `Selection.AcceptedIffValid` gives both directions;
- a zero shifted score makes a weight infinite and the probabilities NaN, and an empty vector sums to zero; both are rejected and both fail `ValidFitness`.

`Evolution.SelectionAccepts` proves that the condition always holds inside `run`, because every radius is at least `r_min >= 0`.

## Model

| member | source | states |
|---|---|---|
| `CloudBounds.DeriveBounds` | src/genetic_algorithm.py:21-28 | x_range and y_range are the least and greatest coordinate: every point lies inside them and each end is attained. r_range.hi is the larger span (at least both spans, equal to one of them) and r_range.lo is a tenth of it. The result is well formed: lo <= hi for each range and 0 <= r_min |
| `CloudBounds.SeqMin` | src/genetic_algorithm.py:21 | the column minimum is an element of the column and no element is smaller |
| `CloudBounds.SeqMax` | src/genetic_algorithm.py:22 | the column maximum is an element of the column and no element is larger |
| `GeneticAlgorithm.CircleGA.constructor` | src/genetic_algorithm.py:13-30 | stores the configuration, sets the ranges to those derived from the cloud, and establishes the invariant: population_size rows, all inside the ranges, row i drawn from (xs[i], ys[i], rs[i]) |
| `GeneticAlgorithm.CircleGA.InitializePopulation` | src/genetic_algorithm.py:32-38 | exactly population_size rows; row i is (xs[i], ys[i], rs[i]); given draws inside the ranges, every row has cx in x_range, cy in y_range and r in r_range |
| `GeneticAlgorithm.CircleGA.CalculateFitness` | src/genetic_algorithm.py:40-60 | the score array has length population_size, and entry i is r + 10 * (sum of d - r over the points with d > r) for row i |
| `Fitness.FitnessAll` | src/genetic_algorithm.py:45-58 | one score per row of the population |
| `Fitness.Excess` | src/genetic_algorithm.py:50-54 | the summed excess d - r over the points outside the circle is never negative |
| `Fitness.ExcessZeroIffCovered` | src/genetic_algorithm.py:50-54 | the excess is zero if and only if no point lies strictly outside the circle |
| `Fitness.FitnessOf` | src/genetic_algorithm.py:54-58 | a candidate's score r + 10 * excess is never below its radius r |
| `Fitness.FitnessIsRadiusIffCovered` | src/genetic_algorithm.py:50-58 | fitness == r if and only if every point is within distance r of the centre |
| `Fitness.PopulationFitnessNonNegative` | src/genetic_algorithm.py:45-58 | for a population inside well-formed bounds, every score is at least its row's radius, which is at least 0 |
| `Selection.Weights` | src/genetic_algorithm.py:68 | one weight per score, each the reciprocal of its shifted score: w[i] * (f[i] + 1e-6) == 1 |
| `Selection.WeightsSign` | src/genetic_algorithm.py:68-69 | when the shifted scores f + 1e-6 all share one sign, so do all weights 1/(f + 1e-6) and their sum, so the normalising sum is never zero |
| `Selection.SumScaled` | src/genetic_algorithm.py:69 | dividing every weight by the total divides the sum by the total |
| `Selection.Probabilities` | src/genetic_algorithm.py:68-69 | for valid scores there is one probability per row, every probability is positive and they sum to 1 |
| `Selection.MixedSignsRejected` | src/genetic_algorithm.py:68-73 | when the non-zero shifted scores have mixed signs, the weights sum to zero or some normalised probability is negative, so np.random.choice rejects them |
| `Selection.AcceptedIffValid` | src/genetic_algorithm.py:68-73 | for non-zero shifted scores, the normalised weights are non-negative and sum to one if and only if `ValidFitness` holds |
| `Selection.Select` | src/genetic_algorithm.py:62-74 | succeeds exactly when the probabilities are acceptable to the sampler; it then returns population_size rows, each a copy of some row of the current population |
| `Recombination.Splice` | src/genetic_algorithm.py:83-87 | the child's gene vector is first[:cut] ++ second[cut:] |
| `Recombination.Children` | src/genetic_algorithm.py:81-89 | for each gene position j, the two children's values at j are, as a multiset, the two parents' values at j |
| `Recombination.ChildAt` | src/genetic_algorithm.py:79-89 | row i has a partner row in pair i / 2, and each of its genes is the same-position gene of one of the two parents of that pair |
| `Recombination.Offspring` | src/genetic_algorithm.py:78-90 | the offspring has as many rows as the parents |
| `Recombination.OffspringOfPair` | src/genetic_algorithm.py:79-89 | when pair k's roll is below crossover_rate, child 2k is p1[:c] ++ p2[c:] and child 2k+1 is p2[:c] ++ p1[c:] for c = cuts[k]; otherwise the children are exact copies of the parents |
| `Recombination.GenesPreservedPerPosition` | src/genetic_algorithm.py:84-89 | for each pair and each gene position j, the multiset {child1[j], child2[j]} equals {parent1[j], parent2[j]} |
| `Recombination.OffspringInBounds` | src/genetic_algorithm.py:79-89 | parents inside the bounds give offspring inside the bounds |
| `GeneticAlgorithm.CircleGA.Crossover` | src/genetic_algorithm.py:76-90 | the stride-2 loop fills a fresh buffer equal to `Offspring` of the parents and draws |
| `Mutation.Clip` | src/genetic_algorithm.py:109-111 | with lo <= hi the clipped value lies in [lo, hi]; a value already in range is returned unchanged |
| `Mutation.ClipRow` | src/genetic_algorithm.py:109-111 | with well-formed bounds the clipped row is inside them; each gene is clipped to its own range |
| `Mutation.ClipIdempotent` | src/genetic_algorithm.py:109-111 | clipping a clipped value changes nothing, for any range |
| `Mutation.ClipRowIdempotent` | src/genetic_algorithm.py:109-111 | clipping a clipped row changes nothing |
| `Mutation.MutateRow` | src/genetic_algorithm.py:94-106 | a row whose roll is not below mutation_rate is untouched; otherwise, before clipping, every gene except the selected one is unchanged |
| `Mutation.Mutated` | src/genetic_algorithm.py:94-113 | mutation keeps the row count |
| `Mutation.MutatedInBounds` | src/genetic_algorithm.py:92-113 | after mutation every row satisfies cx in x_range, cy in y_range and r in r_range, and the row count is unchanged |
| `Mutation.UntouchedGeneKept` | src/genetic_algorithm.py:94-111 | a gene that was in range and was not mutated is left unchanged by the clip |
| `GeneticAlgorithm.CircleGA.Mutate` | src/genetic_algorithm.py:92-113 | the in-place nudge loop followed by the three in-place column clips leaves the buffer equal to `Mutated` of its old contents |
| `Evolution.ArgMin` | src/genetic_algorithm.py:125 | returns an index of a minimum, and every earlier index holds a strictly larger score (the first argmin) |
| `Evolution.Track` | src/genetic_algorithm.py:125-128 | after a generation the best is set, is at most every score of the generation and at most the previous best; it changes only to the first-argmin row and its score, and only on strict improvement; ties keep the earlier best |
| `Evolution.SelectionAccepts` | src/genetic_algorithm.py:68-74 | inside `run` the selection probabilities are always acceptable, since every radius is at least r_min >= 0 |
| `Evolution.Step` | src/genetic_algorithm.py:133-143 | one generation keeps the population size and leaves every row inside the bounds |
| `Evolution.Evolve` | src/genetic_algorithm.py:115-145 | the population keeps population_size rows inside the bounds through every generation; no best exists exactly when no generation ran; the best fitness never increases |
| `Evolution.EvolveUnfold` | src/genetic_algorithm.py:120-143 | running the first generation and then the others equals running them all |
| `Evolution.Evaluated` | src/genetic_algorithm.py:120-122 | one evaluated population per generation |
| `Evolution.BestHistory` | src/genetic_algorithm.py:117-128 | the best-so-far trajectory has one entry per generation (`run` does not return it) |
| `Evolution.BestHistoryNonIncreasing` | src/genetic_algorithm.py:117-128 | best_fitness_overall is non-increasing across generations, never above its starting value, and its last value is the fitness of the individual `run` reports |
| `Evolution.BestHistoryLast` | src/genetic_algorithm.py:126-128 | after at least one generation, the last best-so-far fitness is the fitness of the best that `run` reports |
| `Evolution.EvolveTracksEvaluated` | src/genetic_algorithm.py:117-128 | every evaluated population has population_size rows, and the reported best is the best-so-far fold over the evaluated populations |
| `Evolution.TrackAllBeats` | src/genetic_algorithm.py:125-128 | no row of any evaluated population scores below the final best |
| `Evolution.TrackAll` | src/genetic_algorithm.py:120-128 | tracking the best over the evaluated populations never raises the best fitness, and once a population has been seen the best is set |
| `Evolution.TrackAllFromRows` | src/genetic_algorithm.py:126-128 | the final best is either the starting one or some evaluated row paired with that row's own fitness |
| `Evolution.BestIsBestEvaluated` | src/genetic_algorithm.py:117-145 | after at least one generation the reported individual is a row that was actually evaluated, reported with its own fitness, and no evaluated row scores lower |
| `GeneticAlgorithm.CircleGA.Generation` | src/genetic_algorithm.py:120-143 | one pass of the loop body keeps the invariant, the new population is `Step` of the old one, and the best so far is `Track` of the previous best over the old population's scores |
| `GeneticAlgorithm.CircleGA.Run` | src/genetic_algorithm.py:115-145 | the invariant is kept, so the population keeps population_size rows, all in bounds; the final population and the returned individual are those of `Evolve` from the old population; nothing is returned exactly when generations == 0 |

## Left out

Error paths modelled as preconditions (the source crashes on these inputs):

- `GeneticAlgorithm.CircleGA.Run`: an odd `population_size` makes `_crossover` index past the end of `parents` (IndexError at line 80), and an empty population makes `np.argmin` raise ValueError at line 125. So `Run` requires `generations > 0 ==> population_size > 0 && population_size % 2 == 0`.
- `GeneticAlgorithm.CircleGA.constructor`: an empty cloud makes `points.min` raise ValueError at line 21, so the constructor requires a non-empty cloud.

Other omissions:

- `generations` is a `nat`. A negative count makes `range` empty in the source, so `run` returns `None` as for zero; the model does not admit it.
- `visualize_solution`, the `__main__` block and the progress `print` inside `run` (lines 130-131) are display and I/O.
- `src/point_generator.py`, `src/evaluation.py` and `src/main.py` are not part of this model. They generate data, take measurements and parse command lines. The cloud is any non-empty sequence of points.
- The probability distributions and the pseudo-random generator are not modelled. Draws are inputs constrained only to their ranges: cut in {1, 2}, selected index below population_size, uniform values inside their range. The source consumes one global stream, drawing `randint` only for pairs that recombine. The model indexes draws per pair and per row instead, which is the same up to renaming the draws.
- `Selection.Select`: the selected indices are inputs. The contract does not relate how often an index is picked to its probability. The probabilities are only proved to be a valid distribution.
- IEEE-754 behaviour, NaN and infinity are not modelled, and numpy's tolerance when checking that probabilities sum to one is not needed. Arithmetic is exact on `real`. `np.inf` as the start value of `best_fitness_overall` is the `NoBest` state, which every finite score beats.
- The concrete square root is not modelled. Distance is an arbitrary function parameter.
- `np.random.uniform` draws from [lo, hi). The model admits the closed interval [lo, hi].
- `best_individual_overall` is a numpy view of a population row. The model stores the row's value. That is equivalent because no array is modified after it becomes the population: crossover always writes a fresh buffer.
- The statistical and convergence-quality claims (accuracy on known optima, degradation under outliers) are empirical and are not modelled.
