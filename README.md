# Game-of-Life pattern search, modelled in Dafny

The system searches for long-lived, growing Game-of-Life patterns with a
genetic algorithm. A chromosome is a flat 0/1 vector of 36 genes, one per
cell of a 6 x 6 bounding box. It is scored as follows:

- reshape it into a grid;
- pad the grid with a zero margin;
- evolve it under the B3/S23 rule, for at most 100 steps, until it dies out or repeats;
- apply a linear formula to the board's lifespan and live-cell counts.

The search loop keeps the best pattern ever seen and stops after 4
generations without improvement, or after 30 generations. Each new
population is the elite chromosome followed by mutated crossover children
of parents picked by roulette selection.

The project has five modules:

- `Wrappers` (`wrappers.dfy`): `Option`.
- `Grids` (`grids.dfy`): the numpy operations the board uses, such as
  `np.reshape`, `np.sum`, the zero padding of a resize, and the raw
  row-major contents of a grid.
- `CellularAutomaton` (`board.dfy`), modelling `board.py`:
  - the neighbour count and the cell rule, as functions;
  - `BoardState`, the board's fields as a value. The functions
    `InitialState`, `UpdateState` and `Evolved` say what the constructor,
    `update_board` and `evolve` do to that value;
  - the class `Board`, with the Python fields and methods. Each method is
    proved to change the fields as those functions say. The next grid is
    built cell by cell in nested loops (`ComputeNextGrid`), as the source
    does.
- `GeneticAlgorithm` (`genetic.dfy`), modelling `genetic_algo.py`. It holds:
  - the configuration constants;
  - the fitness of a chromosome;
  - the population's fitness records, sorted by a stable insertion sort
    that stands for `list.sort(key=...)`;
  - crossover, and mutation in place on an `array`;
  - roulette and rank selection, as loops proved against a shared
    specification of the walk (`FirstCovering`).
- `Search` (`search.dfy`), modelling lines 20–70 of `main.py`:
  - `Loop` and `Run` specify the generation loop as functions;
  - `RunSearch`, `SearchLoop`, `RunGeneration` and `BuildNextPopulation`
    are the loop as methods, proved equal to those functions.

The loop is specified for any generation step that keeps the per-generation
guarantees `StepUpdates`. The search uses it with `GenerationStep`, so the
loop's properties are proved once, about those guarantees.

Randomness becomes parameters:

- `generate_random_chromosome` takes one draw in [0, 1) per gene. A gene is
  live when its draw is below `PROBABILITY_OF_LIVE`.
- `random.uniform(0, s)` is `s * u` for a draw `u` in [0, 1).
- `random.randint` becomes the drawn index itself.
- `random.random()` in `mutate` becomes the mutation draw.
- A breeding pair's seven draws form a `PairDraw`. The whole run takes one
  `PairDraw` per pair per generation.

Where the code and its description differ, the model follows the code:

- After a step, `current_config_size` holds the live count of the grid
  *before* the step. board.py:85 sums `self.matrix` before board.py:88
  installs the new grid.
- The cycle fingerprint at board.py:89 hashes the raw bytes of the new grid,
  so the shape is not part of it. The model uses the row-major flattening
  (`Fingerprint`), compared by equality.
- A resize is attempted even in the step that detects a cycle.
- Roulette selection can fall off the end of the records. Python then
  returns `None` and `crossover` fails on it. The model returns `None` from
  `RouletteWheelParentSelection`, and the run ends with
  `selectionFailed == true`. `NextPopulationSpec` proves this cannot happen
  while the fitness sum is positive. Fitness can be negative, because the
  growth term `(current - init) * 2` can be.

## Model

| member | source | states |
|---|---|---|
| CellularAutomaton.NeighborsCountIsWindow | board.py:20-41 | the count of the eight guarded neighbours equals the sum of the 3x3 window around the cell less the cell itself, with cells off the grid read as 0 (no wrap-around) |
| CellularAutomaton.NeighborsCountBounds | board.py:20-41 | on a 0/1 grid a cell has between 0 and 8 live neighbours |
| CellularAutomaton.ApplyRulesB3S23 | board.py:8-17 | the rule yields 0 or 1, and 1 exactly when the neighbourhood holds 3 live cells, or 2 around a live cell |
| CellularAutomaton.NextGridRule | board.py:77-81 | the next grid has the old grid's shape, is 0/1, and every cell follows B3/S23 on the old grid's neighbourhood |
| CellularAutomaton.ComputeNextGrid | board.py:77-83 | the nested loops build exactly the next grid, and the resize flag is set iff some non-zero new cell lies in the first or last row or column |
| CellularAutomaton.ResizeShape | board.py:61-73 | at width or height >= 100 the grid is unchanged; otherwise both dimensions grow by exactly 4, old cell (i, j) moves to (i + 2, j + 2), the new frame is zero and the live count is kept |
| CellularAutomaton.Board.ResizeBoard | board.py:61-73 | the matrix becomes the resized grid; width and height are updated only when it grows |
| CellularAutomaton.Board.constructor | board.py:46-59 | the new board is valid (width and height are the matrix's dimensions) and its fields equal `InitialState` |
| CellularAutomaton.InitialStateCounters | board.py:46-59 | after construction the lifespan is 0, the history is empty, there is no cycle, the initial, maximum and current live counts all equal the sum of the chromosome's genes, and the board is consistent |
| CellularAutomaton.InitialStateGrid | board.py:46-59 | below the maximum size the constructed matrix is (h + 4) x (w + 4), with the reshaped pattern at offset (2, 2) and zeros elsewhere |
| Grids.ReshapeShape | board.py:47 | reshaping gives `|c| / cols` rows of `cols` cells, and flattening gives back the chromosome |
| Grids.ReshapeCell | board.py:47 | reshaping is row-major: cell (i, j) is `c[i * cols + j]` |
| Grids.PadShape | board.py:66-72 | padding by k grows each dimension by 2k, keeps each old cell at offset (k, k) and zeroes the frame |
| Grids.PadSum | board.py:66-72 | padding with zeros keeps the live count |
| Grids.FlattenLength | board.py:89 | the fingerprint of an h x w grid has h * w entries |
| CellularAutomaton.Board.UpdateBoard | board.py:75-96 | one step keeps the board valid and changes its fields exactly as `UpdateState` says |
| CellularAutomaton.Board.CountStep | board.py:84-87 | the lifespan goes up by one, the current count becomes the live count of the matrix before the step, and the maximum is raised to it if exceeded |
| CellularAutomaton.Board.RecordHash | board.py:89-94 | the cycle flag is whether the fingerprint was already in the history, and the history becomes `Recorded(history, fingerprint)` |
| CellularAutomaton.UpdateCounters | board.py:84-88 | a step raises the lifespan by exactly 1, stores the pre-step live count, sets the maximum to the larger of the old maximum and that count, and keeps the initial pattern |
| CellularAutomaton.RecordedSpec | board.py:90-94 | a known fingerprint leaves the history unchanged; a new one is appended and the history cut to its last three entries; a history of at most three distinct entries stays so and contains the fingerprint |
| CellularAutomaton.UpdateHistory | board.py:89-94 | the cycle flag is set exactly when the new fingerprint is already in the history; the fingerprint is appended only when new; the history stays at most 3 long with distinct entries |
| CellularAutomaton.UpdateGrowth | board.py:82-96 | the grid grows by 4 in each dimension exactly when a live cell of the new grid touches the border and neither dimension is at its maximum, whether or not a cycle was found; otherwise its shape is kept |
| CellularAutomaton.UpdateConsistent | board.py:75-96 | a step keeps the board consistent: a rectangular grid, a well-formed history, and a maximum at least the initial and current counts |
| CellularAutomaton.Evolved | board.py:98-101 | the evolved board cannot step any more, its lifespan never decreases and ends at most at max(initial lifespan, maxSteps), and the initial pattern is kept |
| CellularAutomaton.EvolvedSpec | board.py:98-101 | evolution keeps the board consistent and stops extinct, at the step cap or cycled; a board that cannot step is returned unchanged; evolving again changes nothing |
| CellularAutomaton.Board.Evolve | board.py:98-101 | the loop leaves the fields equal to `Evolved` of the old ones, with `current_config_size <= 0 or lifespan >= maxSteps or is_cycle`, and changes nothing when the loop condition is false on entry |
| GeneticAlgorithm.ElitismIsOne | genetic_algo.py:19 | `ceil(10 * 0.05)` is 1 |
| GeneticAlgorithm.ChromosomeEvaluable | genetic_algo.py:52-54 | a chromosome of 36 genes is accepted by `Board(chromosome, 6)` |
| GeneticAlgorithm.GenerateRandomChromosome | genetic_algo.py:29-32 | the chromosome has 36 genes, each 0 or 1, and gene i is 1 exactly when its draw is below `PROBABILITY_OF_LIVE` |
| GeneticAlgorithm.CreateRandomPopulation | genetic_algo.py:35-37 | the population has `POPULATION_SIZE` chromosomes, each of 36 0/1 genes |
| GeneticAlgorithm.CalculateFitness | genetic_algo.py:52-57 | the returned board is fresh and valid and in the evolved state of the chromosome, and the fitness is the linear formula over its counters |
| GeneticAlgorithm.EvolvedBoardSpec | genetic_algo.py:52-57 | the evolved board is consistent and frozen (extinct, 100 steps, or cycled), the lifespan is at most 100, and the fitness is `lifespan + 3 * current - 2 * init` where init is the sum of the chromosome's genes |
| GeneticAlgorithm.ZeroChromosomeFitness | genetic_algo.py:52-57 | an all-zero chromosome has lifespan 0 and fitness 0 |
| GeneticAlgorithm.InsertPermutation | genetic_algo.py:48 | inserting a record gives a permutation of the record and the list |
| GeneticAlgorithm.InsertSortedSpec | genetic_algo.py:48 | inserting into an ascending list keeps it ascending |
| GeneticAlgorithm.InsertTotalSpec | genetic_algo.py:48 | inserting adds exactly the record's fitness to the total |
| GeneticAlgorithm.InsertStableSpec | genetic_algo.py:48 | for every fitness value, the records of that fitness keep their order, with the inserted record first |
| GeneticAlgorithm.SortPermutation | genetic_algo.py:48 | the sort is a permutation of its input |
| GeneticAlgorithm.SortSorted | genetic_algo.py:48 | the sort is ascending by fitness |
| GeneticAlgorithm.SortStable | genetic_algo.py:48 | records of equal fitness keep their input order |
| GeneticAlgorithm.SortTotal | genetic_algo.py:48 | the sort keeps the total fitness |
| GeneticAlgorithm.SortSpec | genetic_algo.py:48 | the sort is an ascending, stable permutation with the same total fitness |
| GeneticAlgorithm.EvaluateChromosome | genetic_algo.py:45-46 | one loop body yields the chromosome's record: its fitness and evolved board |
| GeneticAlgorithm.EvaluatePopulation | genetic_algo.py:42-47 | the loop yields one record per chromosome in population order, and the running sum is their total fitness |
| GeneticAlgorithm.CalculatePopulationFitness | genetic_algo.py:40-49 | the result is the stable ascending sort of the population's records, a permutation of them with one record per chromosome, and the sum is the total fitness |
| GeneticAlgorithm.CrossoverGenes | genetic_algo.py:68-72 | for equal-length parents both children have the parents' length; below the cut child 1 has parent 1's genes and child 2 parent 2's, above it the other way round |
| GeneticAlgorithm.CrossoverInverse | genetic_algo.py:68-72 | recombining the children at the same cut gives back the parents: `child1[:p] + child2[p:] == c1` and `child2[:p] + child1[p:] == c2` |
| GeneticAlgorithm.CrossoverSpec | genetic_algo.py:68-72 | the two lemmas above, plus: at every index the children hold the parents' two genes, and 0/1 parents give 0/1 children |
| GeneticAlgorithm.Mutated | genetic_algo.py:60-65 | below the mutation probability exactly the gene at `point` is flipped 0 <-> 1 and every other gene is kept; otherwise the chromosome is unchanged; the length is kept |
| GeneticAlgorithm.MutatedSpec | genetic_algo.py:60-65 | on a 0/1 chromosome a mutation changes exactly one gene when the draw is below the probability and none otherwise, and yields a 0/1 chromosome |
| GeneticAlgorithm.Mutate | genetic_algo.py:60-65 | the array is changed in place to `Mutated` of its old contents: one gene flipped below the probability, nothing changed otherwise |
| GeneticAlgorithm.FirstCoveringSpec | genetic_algo.py:78-81 | the walk stops at the first index whose prefix sum exceeds `n`, and runs off the end exactly when no prefix sum does |
| GeneticAlgorithm.UniformBelow | genetic_algo.py:77 | for a positive total, `uniform(0, total)` with a draw in [0, 1) lies in [0, total) |
| GeneticAlgorithm.RouletteWheelParentSelection | genetic_algo.py:75-81 | the loop returns the chromosome at the index where the walk over the fitness values stops, and None when it runs off the end |
| GeneticAlgorithm.RouletteSelectionSpec | genetic_algo.py:75-81 | the result is None iff the draw reaches every prefix sum; otherwise it is the chromosome of the first record whose prefix sum exceeds the draw, a member of the records; with a positive total fitness it is never None |
| GeneticAlgorithm.RankPrefix | genetic_algo.py:86-92 | the first k of the ranks 1..N sum to k(k + 1)/2 |
| GeneticAlgorithm.RankParentSelection | genetic_algo.py:84-97 | the two loops return the chromosome at the index where the walk over the ranks 1..N stops, with n drawn from [0, N(N + 1)/2); the result is None exactly when there are no records |
| GeneticAlgorithm.RankSelectionSpec | genetic_algo.py:84-97 | the walk over the ranks picks index k for the least k with n < (k + 1)(k + 2)/2, and fails exactly when N = 0 |
| Search.Parent | main.py:58-59 | a parent picked from records of 0/1 chromosomes is a 0/1 chromosome |
| Search.Offspring | main.py:62-66 | crossover and mutation of two 0/1 parents give two 0/1 children |
| Search.Children | main.py:58-66 | a pair breeds no children exactly when one of its two selections picks no one, and otherwise it breeds two 0/1 children |
| Search.AllChildren | main.py:57-68 | when every pair breeds, the pairs give two children each |
| Search.AllChildrenFail | main.py:57-68 | the children are missing exactly when some pair failed to breed |
| Search.AllChildrenChromosomes | main.py:57-68 | the children of pairs that breed 0/1 chromosomes are 0/1 chromosomes |
| Search.RefillTakesChildren | main.py:57-68 | appending the pairs' children and stopping when the population is full takes exactly the first `POPULATION_SIZE - |acc|` children |
| Search.RefillSpec | main.py:51-68 | starting from the elites, the refill gives the elites followed by the first 9 children: exactly `POPULATION_SIZE` chromosomes of the search, starting with the elites; it fails exactly when some pair failed |
| Search.BroodsSucceed | main.py:57-59 | while the fitness sum is the positive total of the records, every selection picks a parent |
| Search.NextPopulationSpec | main.py:50-68 | the next population is the elites then the first 9 children: `POPULATION_SIZE` chromosomes of the search whose first `ELITISM_SELECTION` members are the chromosomes at sorted positions `POPULATION_SIZE - 1 - i`, unchanged; it fails exactly when some selection picks no one, which the positive total fitness rules out |
| Search.MutatedChild | main.py:63-66 | mutating a child in its own array gives `Mutated` of the child |
| Search.BuildNextPopulation | main.py:50-68 | the elitism loop and the crossover loop with its two early breaks build exactly `NextPopulation`, and None when a selection picked no one |
| Search.TrackBest | main.py:34-40 | a maximum above the best fitness makes the last sorted record the best, with the counter reset to 1; otherwise the counter goes up by exactly 1 and the best-ever triple is kept; the best fitness never falls and is at least every sorted record's fitness |
| Search.SortedRecordsOk | main.py:26 | the sorted records of a population are `POPULATION_SIZE` records of chromosomes of the search, ascending, with the population's total fitness |
| Search.GenerationStep | main.py:26-70 | one generation keeps `StepUpdates`: the best fitness never falls, is at least the generation's maximum and changes only to it; the counter restarts at 1 or goes up by 1; the generation stops exactly when the counter reaches 4, breeding nothing; a bred population is a population of the search |
| Search.LoopSpec | main.py:25-70 | from any state of the loop, for any step keeping `StepUpdates`: at most `MAX_GENERATIONS` generations and at least one more; one maximum recorded per generation; the best fitness never falls, is at least every maximum, and is the previous best or a new maximum; an early stop without a failed selection means the counter reached 4 |
| Search.RunSpec | main.py:20-70 | the run evaluates between 1 and 30 generations and records one maximum for each; the best fitness is 0 or one of the maxima, and at least all of them; an early stop without a failed selection means 4 generations without improvement |
| Search.RunGeneration | main.py:26-70 | one pass of the loop body computes exactly `GenerationStep` |
| Search.StartSearch | main.py:20-24 | the first population is `create_random_population` of the draws, and the best-ever record is fitness 0, the first chromosome and its freshly built board |
| Search.SearchLoop | main.py:25-70 | the `for generation` loop with its early exits computes exactly `Loop` from generation 0 |
| Search.RunSearch | main.py:20-70 | the whole search computes exactly `Run` of its draws |

## Left out

- gui.py: the tkinter window, canvas drawing and timer callbacks are UI code.
- main.py:31-32 and 84-94: the minimum and average statistics and the files all three lists are written to. They are only appended to and dumped, and have no effect on the search. The maxima of main.py:30 are the outcome's `fitnessMaxima`.
- main.py:42-44, 47 and 72-82: console output, the evolution of the best board up to 500 steps after the loop, and the GUI launch. These are output and presentation after the search.
- `print_board`, `print_pattern` and `print_data` (board.py:103-132): console output.
- Random number generation: every draw is a parameter (see above). The distributions of `np.random.choice`, `random.random`, `random.randint` and `random.uniform` are not modelled.
- Floating point: probabilities and uniform draws are Dafny `real`s, so rounding is not modelled.
- `hash(new_matrix.data.tobytes())`: replaced by exact comparison of the flattened grid, so hash collisions are not modelled.
- numpy's reshape error when the chromosome length is not a multiple of the column count: this is a precondition of the constructor.
- numpy arrays are modelled as `seq`s that the methods reassign, except the chromosome that `mutate` changes in place, which is an `array`. A record holds the evolved board's state as a value, not a reference to the `Board` object. Nothing in lines 20–70 changes a board after `calculate_fitness`, so no aliasing is lost.
- `mutate` returns the array it changed. The model's `Mutate` changes the array and returns nothing, and `MutatedChild` reads the array back.
- `rank_parent_selection` is not called by the search (main.py:60-61 are commented out). It is modelled and proved on its own.
- `Search.SearchLoop`: it is proved against `Loop` for a ghost step that its precondition ties to `GenerationStep`, and `RunSearch` passes `GenerationStep` itself. This is a proof device and changes nothing about the loop.
