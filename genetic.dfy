/** The genetic operators and the fitness of a chromosome (genetic_algo.py).
    Every random draw is a parameter: the per-gene draws of a new chromosome,
    the cut point of a crossover, the draw and position of a mutation, and
    the draw `u` in [0, 1) from which `random.uniform(0, s)` makes `s * u`. */
module GeneticAlgorithm {
  import opened Wrappers
  import opened Grids
  import opened CellularAutomaton

  // configuration of the automaton
  const BOUNDING_BOX_WIDTH: int := 6
  const BOUNDING_BOX_HEIGHT: int := 6
  const PROBABILITY_OF_LIVE: real := 0.2

  // configuration of the genetic algorithm
  const POPULATION_SIZE: int := 10
  const MAX_GENERATIONS: int := 30
  const MAX_GENERATIONS_WITHOUT_IMPROVEMENT: int := 4
  const MUTATION_PROBABILITY: real := 0.8
  const ELITISM_SELECTION: int := Ceil(POPULATION_SIZE as real * 0.05)

  // fitness configuration
  const LIFESPAN_FITNESS: int := 1
  const GROWTH_FITNESS: int := 1
  const MAX_GROWTH_FITNESS: int := 2
  const STEPS_TO_EVOLVE: int := 100

  /** The number of genes: one per cell of the bounding box. */
  const CHROMOSOME_LENGTH: int := BOUNDING_BOX_HEIGHT * BOUNDING_BOX_WIDTH

  /** math.ceil */
  function Ceil(x: real): int {
    -((-x).Floor)
  }

  lemma ElitismIsOne()
    ensures ELITISM_SELECTION == 1
  {
    assert POPULATION_SIZE as real * 0.05 == 0.5;
    assert (-0.5).Floor == -1;
  }

  type Chromosome = seq<int>

  /** A chromosome of the search: one 0/1 gene per bounding-box cell. */
  predicate IsChromosome(c: Chromosome) {
    |c| == CHROMOSOME_LENGTH && forall i :: 0 <= i < |c| ==> c[i] == 0 || c[i] == 1
  }

  /** What Board(chromosome, BOUNDING_BOX_WIDTH) accepts. */
  predicate Evaluable(c: Chromosome) {
    |c| > 0 && |c| % BOUNDING_BOX_WIDTH == 0
  }

  lemma ChromosomeEvaluable(c: Chromosome)
    requires IsChromosome(c)
    ensures Evaluable(c)
  {
    assert |c| == 6 * 6;
  }

  // ---------------------------------------------------------------------
  // The initial population

  /** generate_random_chromosome: gene i is live when its draw falls below
      PROBABILITY_OF_LIVE (the way a two-way weighted choice picks its first
      option). */
  function GenerateRandomChromosome(draws: seq<real>): (c: Chromosome)
    requires |draws| == CHROMOSOME_LENGTH
    ensures IsChromosome(c)
    ensures forall i :: 0 <= i < |c| ==> (c[i] == 1 <==> draws[i] < PROBABILITY_OF_LIVE)
  {
    seq(|draws|, i requires 0 <= i < |draws| => if draws[i] < PROBABILITY_OF_LIVE then 1 else 0)
  }

  /** create_random_population: POPULATION_SIZE fresh chromosomes. */
  function CreateRandomPopulation(draws: seq<seq<real>>): (p: seq<Chromosome>)
    requires |draws| == POPULATION_SIZE
    requires forall i :: 0 <= i < |draws| ==> |draws[i]| == CHROMOSOME_LENGTH
    ensures |p| == POPULATION_SIZE
    ensures forall i :: 0 <= i < |p| ==> IsChromosome(p[i])
  {
    seq(|draws|, i requires 0 <= i < |draws| => GenerateRandomChromosome(draws[i]))
  }

  // ---------------------------------------------------------------------
  // Fitness

  /** The fitness formula over an evolved board. */
  function Fitness(b: BoardState): int {
    b.lifespan * LIFESPAN_FITNESS
    + (b.currentConfigSize - b.initConfigSize) * MAX_GROWTH_FITNESS
    + b.currentConfigSize * GROWTH_FITNESS
  }

  /** The board of `c` after evolve(STEPS_TO_EVOLVE). */
  function EvolvedBoard(c: Chromosome): BoardState
    requires Evaluable(c)
  {
    InitialStateCounters(c, BOUNDING_BOX_WIDTH);
    Evolved(InitialState(c, BOUNDING_BOX_WIDTH), STEPS_TO_EVOLVE)
  }

  /** calculate_fitness: build the board, evolve it, score it. */
  method CalculateFitness(chromosome: Chromosome) returns (board: Board, fitness: int)
    requires Evaluable(chromosome)
    ensures fresh(board) && board.Valid()
    ensures board.State() == EvolvedBoard(chromosome)
    ensures fitness == Fitness(board.State())
  {
    board := new Board(chromosome, BOUNDING_BOX_WIDTH);
    board.Evolve(STEPS_TO_EVOLVE);
    fitness := board.lifespan * LIFESPAN_FITNESS
      + (board.currentConfigSize - board.initConfigSize) * MAX_GROWTH_FITNESS
      + board.currentConfigSize * GROWTH_FITNESS;
  }

  /** An evolved board is frozen: extinct, at the step cap, or cycled; it
      never took more than STEPS_TO_EVOLVE steps; its fitness is the formula
      over its final counters. */
  lemma EvolvedBoardSpec(c: Chromosome)
    requires Evaluable(c)
    ensures var b := EvolvedBoard(c);
      Consistent(b) && b.lifespan <= STEPS_TO_EVOLVE &&
      (b.currentConfigSize <= 0 || b.lifespan == STEPS_TO_EVOLVE || b.isCycle) &&
      b.initConfigSize == Sum(c) &&
      Fitness(b) == b.lifespan + 3 * b.currentConfigSize - 2 * Sum(c)
  {
    InitialStateCounters(c, BOUNDING_BOX_WIDTH);
    EvolvedSpec(InitialState(c, BOUNDING_BOX_WIDTH), STEPS_TO_EVOLVE);
  }

  /** An all-zero chromosome never steps: lifespan 0 and fitness 0. */
  lemma {:induction false} ZeroChromosomeFitness(c: Chromosome)
    requires Evaluable(c)
    requires forall i :: 0 <= i < |c| ==> c[i] == 0
    ensures EvolvedBoard(c).lifespan == 0
    ensures Fitness(EvolvedBoard(c)) == 0
  {
    ZeroRowSum(c);
    InitialStateCounters(c, BOUNDING_BOX_WIDTH);
  }

  // ---------------------------------------------------------------------
  // The population's fitness

  datatype FitnessRecord = FitnessRecord(chromosome: Chromosome, fitness: int, board: BoardState)

  /** The record calculate_fitness yields for `c`. */
  function Evaluate(c: Chromosome): FitnessRecord
    requires Evaluable(c)
  {
    FitnessRecord(c, Fitness(EvolvedBoard(c)), EvolvedBoard(c))
  }

  /** The records in population order. */
  function Evaluations(population: seq<Chromosome>): (rs: seq<FitnessRecord>)
    requires forall i :: 0 <= i < |population| ==> Evaluable(population[i])
  {
    seq(|population|, i requires 0 <= i < |population| => Evaluate(population[i]))
  }

  function Fitnesses(rs: seq<FitnessRecord>): (fs: seq<int>)
    ensures |fs| == |rs| && forall i :: 0 <= i < |rs| ==> fs[i] == rs[i].fitness
  {
    seq(|rs|, i requires 0 <= i < |rs| => rs[i].fitness)
  }

  function TotalFitness(rs: seq<FitnessRecord>): int {
    Sum(Fitnesses(rs))
  }

  predicate SortedByFitness(rs: seq<FitnessRecord>) {
    forall i, j :: 0 <= i < j < |rs| ==> rs[i].fitness <= rs[j].fitness
  }

  /** The records of fitness `f`, in their order. */
  function WithFitness(rs: seq<FitnessRecord>, f: int): seq<FitnessRecord> {
    if rs == [] then []
    else (if rs[0].fitness == f then [rs[0]] else []) + WithFitness(rs[1..], f)
  }

  /** `r` placed before the first record at least as fit. */
  function InsertByFitness(r: FitnessRecord, rs: seq<FitnessRecord>): seq<FitnessRecord> {
    if rs == [] || r.fitness <= rs[0].fitness then [r] + rs
    else [rs[0]] + InsertByFitness(r, rs[1..])
  }

  /** The stable ascending sort by fitness (list.sort with key=fitness). */
  function SortByFitness(rs: seq<FitnessRecord>): seq<FitnessRecord> {
    if rs == [] then [] else InsertByFitness(rs[0], SortByFitness(rs[1..]))
  }

  /** Inserting keeps the records: the result is a permutation of `[r] + rs`. */
  lemma {:induction false} InsertPermutation(r: FitnessRecord, rs: seq<FitnessRecord>)
    ensures multiset(InsertByFitness(r, rs)) == multiset([r] + rs)
  {
    if rs != [] && rs[0].fitness < r.fitness {
      InsertPermutation(r, rs[1..]);
      HeadTail(rs);
    }
  }

  /** Inserting into an ascending list keeps it ascending. */
  lemma {:induction false} InsertSortedSpec(r: FitnessRecord, rs: seq<FitnessRecord>)
    requires SortedByFitness(rs)
    ensures SortedByFitness(InsertByFitness(r, rs))
  {
    if rs != [] && rs[0].fitness < r.fitness {
      InsertSortedSpec(r, rs[1..]);
      InsertPermutation(r, rs[1..]);
      InsertSorted(r, rs, InsertByFitness(r, rs[1..]));
    }
  }

  /** Inserting adds exactly the fitness of the inserted record. */
  lemma {:induction false} InsertTotalSpec(r: FitnessRecord, rs: seq<FitnessRecord>)
    ensures TotalFitness(InsertByFitness(r, rs)) == r.fitness + TotalFitness(rs)
  {
    if rs == [] || r.fitness <= rs[0].fitness {
      TotalCons(r, rs);
    } else {
      InsertTotalSpec(r, rs[1..]);
      InsertTotal(r, rs, InsertByFitness(r, rs[1..]));
    }
  }

  /** Inserting goes in front of the records of equal fitness, as if `r`
      came first. */
  lemma {:induction false} InsertStableSpec(r: FitnessRecord, rs: seq<FitnessRecord>, f: int)
    ensures WithFitness(InsertByFitness(r, rs), f) == WithFitness([r] + rs, f)
  {
    if rs != [] && rs[0].fitness < r.fitness {
      InsertStableSpec(r, rs[1..], f);
      InsertStableAt(r, rs, InsertByFitness(r, rs[1..]), f);
    }
  }

  lemma InsertTotal(r: FitnessRecord, rs: seq<FitnessRecord>, ins: seq<FitnessRecord>)
    requires rs != [] && TotalFitness(ins) == r.fitness + TotalFitness(rs[1..])
    ensures TotalFitness([rs[0]] + ins) == r.fitness + TotalFitness(rs)
  {
    TotalCons(rs[0], ins);
    TotalCons(rs[0], rs[1..]);
    HeadTail(rs);
  }

  lemma InsertSorted(r: FitnessRecord, rs: seq<FitnessRecord>, ins: seq<FitnessRecord>)
    requires rs != [] && SortedByFitness(rs) && rs[0].fitness < r.fitness
    requires SortedByFitness(ins) && multiset(ins) == multiset([r] + rs[1..])
    ensures SortedByFitness([rs[0]] + ins)
  {
    forall k | 0 <= k < |ins| ensures rs[0].fitness <= ins[k].fitness {
      assert ins[k] in multiset([r] + rs[1..]);
      if ins[k] != r {
        assert ins[k] in rs[1..];
        var t :| 0 <= t < |rs| - 1 && rs[1..][t] == ins[k];
        assert rs[t + 1] == ins[k];
      }
    }
  }

  lemma InsertStableAt(r: FitnessRecord, rs: seq<FitnessRecord>, ins: seq<FitnessRecord>, f: int)
    requires rs != [] && rs[0].fitness < r.fitness
    requires WithFitness(ins, f) == WithFitness([r] + rs[1..], f)
    ensures WithFitness([rs[0]] + ins, f) == WithFitness([r] + rs, f)
  {
    WithFitnessCons(rs[0], ins, f);
    WithFitnessCons(r, rs, f);
    WithFitnessCons(r, rs[1..], f);
    WithFitnessHead(rs, f);
  }

  lemma WithFitnessCons(r: FitnessRecord, rs: seq<FitnessRecord>, f: int)
    ensures r.fitness == f ==> WithFitness([r] + rs, f) == [r] + WithFitness(rs, f)
    ensures r.fitness != f ==> WithFitness([r] + rs, f) == WithFitness(rs, f)
  {
    WithFitnessHead([r] + rs, f);
    TailCons(r, rs);
  }

  lemma WithFitnessHead(rs: seq<FitnessRecord>, f: int)
    requires rs != []
    ensures rs[0].fitness == f ==> WithFitness(rs, f) == [rs[0]] + WithFitness(rs[1..], f)
    ensures rs[0].fitness != f ==> WithFitness(rs, f) == WithFitness(rs[1..], f)
  {
  }

  lemma TotalCons(r: FitnessRecord, rs: seq<FitnessRecord>)
    ensures TotalFitness([r] + rs) == r.fitness + TotalFitness(rs)
  {
    assert Fitnesses([r] + rs) == [r.fitness] + Fitnesses(rs);
  }

  lemma {:induction false} SortPermutation(rs: seq<FitnessRecord>)
    ensures |SortByFitness(rs)| == |rs| && multiset(SortByFitness(rs)) == multiset(rs)
  {
    if rs != [] {
      SortPermutation(rs[1..]);
      InsertPermutation(rs[0], SortByFitness(rs[1..]));
      HeadTail(rs);
      assert |SortByFitness(rs)| == |multiset(SortByFitness(rs))| == |multiset(rs)| == |rs|;
    }
  }

  lemma {:induction false} SortSorted(rs: seq<FitnessRecord>)
    ensures SortedByFitness(SortByFitness(rs))
  {
    if rs != [] {
      SortSorted(rs[1..]);
      InsertSortedSpec(rs[0], SortByFitness(rs[1..]));
    }
  }

  lemma {:induction false} SortStable(rs: seq<FitnessRecord>, f: int)
    ensures WithFitness(SortByFitness(rs), f) == WithFitness(rs, f)
  {
    if rs != [] {
      SortStable(rs[1..], f);
      InsertStableSpec(rs[0], SortByFitness(rs[1..]), f);
      WithFitnessCons(rs[0], SortByFitness(rs[1..]), f);
      WithFitnessHead(rs, f);
    }
  }

  lemma {:induction false} SortTotal(rs: seq<FitnessRecord>)
    ensures TotalFitness(SortByFitness(rs)) == TotalFitness(rs)
  {
    if rs != [] {
      SortTotal(rs[1..]);
      InsertTotalSpec(rs[0], SortByFitness(rs[1..]));
      TotalCons(rs[0], rs[1..]);
      HeadTail(rs);
    }
  }

  /** The sort yields the same records (a permutation), ascending by fitness,
      with records of equal fitness in their original order, and the same
      total fitness. */
  lemma SortSpec(rs: seq<FitnessRecord>)
    ensures SortedByFitness(SortByFitness(rs))
    ensures |SortByFitness(rs)| == |rs| && multiset(SortByFitness(rs)) == multiset(rs)
    ensures forall f :: WithFitness(SortByFitness(rs), f) == WithFitness(rs, f)
    ensures TotalFitness(SortByFitness(rs)) == TotalFitness(rs)
  {
    SortPermutation(rs);
    SortSorted(rs);
    SortTotal(rs);
    forall f ensures WithFitness(SortByFitness(rs), f) == WithFitness(rs, f) {
      SortStable(rs, f);
    }
  }


  lemma TotalSnoc(rs: seq<FitnessRecord>, r: FitnessRecord)
    ensures TotalFitness(rs + [r]) == TotalFitness(rs) + r.fitness
  {
    assert Fitnesses(rs + [r]) == Fitnesses(rs) + [r.fitness];
    SumConcat(Fitnesses(rs), [r.fitness]);
  }

  /** calculate_population_fitness: one record per chromosome, sorted
      ascending by fitness (stable), and the sum of all fitness values. */
  method CalculatePopulationFitness(population: seq<Chromosome>)
    returns (populationFitnessSorted: seq<FitnessRecord>, fitnessSum: int)
    requires forall i :: 0 <= i < |population| ==> Evaluable(population[i])
    ensures populationFitnessSorted == SortByFitness(Evaluations(population))
    ensures |populationFitnessSorted| == |population|
    ensures multiset(populationFitnessSorted) == multiset(Evaluations(population))
    ensures SortedByFitness(populationFitnessSorted)
    ensures forall f :: WithFitness(populationFitnessSorted, f) == WithFitness(Evaluations(population), f)
    ensures fitnessSum == TotalFitness(populationFitnessSorted)
  {
    var populationFitnessList;
    populationFitnessList, fitnessSum := EvaluatePopulation(population);
    populationFitnessSorted := SortByFitness(populationFitnessList);
    SortSpec(populationFitnessList);
  }

  /** One pass of that loop's body: the record of `c` with its fitness and
      its evolved board. */
  method EvaluateChromosome(c: Chromosome) returns (record: FitnessRecord)
    requires Evaluable(c)
    ensures record == Evaluate(c)
  {
    var board, fitness := CalculateFitness(c);
    record := FitnessRecord(c, fitness, board.State());
  }

  /** The loop of calculate_population_fitness: evaluate each chromosome in
      turn, adding its fitness to the running sum. */
  method EvaluatePopulation(population: seq<Chromosome>)
    returns (populationFitnessList: seq<FitnessRecord>, fitnessSum: int)
    requires forall i :: 0 <= i < |population| ==> Evaluable(population[i])
    ensures populationFitnessList == Evaluations(population)
    ensures fitnessSum == TotalFitness(populationFitnessList)
  {
    fitnessSum := 0;
    populationFitnessList := [];
    ghost var records := Evaluations(population);
    for i := 0 to |population|
      invariant populationFitnessList == records[..i]
      invariant fitnessSum == TotalFitness(populationFitnessList)
    {
      var record := EvaluateChromosome(population[i]);
      PrefixSnoc(records, i);
      TotalSnoc(populationFitnessList, record);
      populationFitnessList := populationFitnessList + [record];
      fitnessSum := fitnessSum + record.fitness;
    }
    PrefixAll(records);
  }

  lemma HeadTail<T>(s: seq<T>)
    requires s != []
    ensures s == [s[0]] + s[1..]
  {
  }

  lemma TailCons<T>(x: T, s: seq<T>)
    ensures ([x] + s)[1..] == s
  {
  }

  lemma PrefixSnoc<T>(s: seq<T>, i: int)
    requires 0 <= i < |s|
    ensures s[..i + 1] == s[..i] + [s[i]]
  {
  }

  lemma PrefixAll<T>(s: seq<T>)
    ensures s[..|s|] == s
  {
  }

  // ---------------------------------------------------------------------
  // Variation

  /** Python's `s[:n]` and `s[n:]` for n >= 0: a bound past the end is the end. */
  function Take(s: seq<int>, n: nat): seq<int> {
    if n <= |s| then s[..n] else s
  }

  function Drop(s: seq<int>, n: nat): seq<int> {
    if n <= |s| then s[n..] else []
  }

  /** crossover with cut point `point` (drawn from [0, |chromosome1| - 1]). */
  function Crossover(chromosome1: Chromosome, chromosome2: Chromosome, point: int): (Chromosome, Chromosome)
    requires 0 <= point < |chromosome1|
  {
    (chromosome1[..point] + Drop(chromosome2, point), Take(chromosome2, point) + chromosome1[point..])
  }

  /** For parents of equal length, both children have that length; below the
      cut the first child has the first parent's genes and above it the
      second's, the second child the other way round, so at every index the
      children hold the parents' two genes; recombining the children at the
      same cut gives back the parents; 0/1 parents give 0/1 children. */
  lemma CrossoverSpec(c1: Chromosome, c2: Chromosome, point: int)
    requires |c1| == |c2| && 0 <= point < |c1|
    ensures var (a, b) := Crossover(c1, c2, point);
      |a| == |c1| && |b| == |c1| &&
      (forall i :: 0 <= i < point ==> a[i] == c1[i] && b[i] == c2[i]) &&
      (forall i :: point <= i < |c1| ==> a[i] == c2[i] && b[i] == c1[i]) &&
      (forall i :: 0 <= i < |c1| ==> multiset{a[i], b[i]} == multiset{c1[i], c2[i]}) &&
      a[..point] + b[point..] == c1 && b[..point] + a[point..] == c2
    ensures IsChromosome(c1) && IsChromosome(c2) ==>
      IsChromosome(Crossover(c1, c2, point).0) && IsChromosome(Crossover(c1, c2, point).1)
  {
    CrossoverGenes(c1, c2, point);
    CrossoverInverse(c1, c2, point);
  }

  lemma CrossoverGenes(c1: Chromosome, c2: Chromosome, point: int)
    requires |c1| == |c2| && 0 <= point < |c1|
    ensures var (a, b) := Crossover(c1, c2, point);
      |a| == |c1| && |b| == |c1| &&
      (forall i :: 0 <= i < point ==> a[i] == c1[i] && b[i] == c2[i]) &&
      (forall i :: point <= i < |c1| ==> a[i] == c2[i] && b[i] == c1[i])
  {
  }

  lemma CrossoverInverse(c1: Chromosome, c2: Chromosome, point: int)
    requires |c1| == |c2| && 0 <= point < |c1|
    ensures var (a, b) := Crossover(c1, c2, point);
      a[..point] + b[point..] == c1 && b[..point] + a[point..] == c2
  {
    var (a, b) := Crossover(c1, c2, point);
    assert a[..point] == c1[..point] && b[point..] == c1[point..];
    assert b[..point] == c2[..point] && a[point..] == c2[point..];
    assert c1[..point] + c1[point..] == c1;
    assert c2[..point] + c2[point..] == c2;
  }

  /** The chromosome after mutate with draw `draw` and position `point`. */
  function Mutated(c: Chromosome, draw: real, point: int): (r: Chromosome)
    requires draw < MUTATION_PROBABILITY ==> 0 <= point < |c|
    ensures |r| == |c|
    ensures draw >= MUTATION_PROBABILITY ==> r == c
    ensures draw < MUTATION_PROBABILITY ==>
      r[point] == (if c[point] == 0 then 1 else 0) &&
      forall i :: 0 <= i < |c| && i != point ==> r[i] == c[i]
  {
    if draw < MUTATION_PROBABILITY then c[point := if c[point] == 0 then 1 else 0] else c
  }

  /** On a 0/1 chromosome a mutation below the probability flips exactly one
      gene; the result is again a chromosome of the search. */
  lemma MutatedSpec(c: Chromosome, draw: real, point: int)
    requires IsChromosome(c)
    requires draw < MUTATION_PROBABILITY ==> 0 <= point < |c|
    ensures IsChromosome(Mutated(c, draw, point))
    ensures draw < MUTATION_PROBABILITY ==> Mutated(c, draw, point)[point] == 1 - c[point]
    ensures |set i | 0 <= i < |c| && Mutated(c, draw, point)[i] != c[i]| ==
            (if draw < MUTATION_PROBABILITY then 1 else 0)
  {
    var r := Mutated(c, draw, point);
    if draw < MUTATION_PROBABILITY {
      assert (set i | 0 <= i < |c| && r[i] != c[i]) == {point};
    } else {
      assert (set i | 0 <= i < |c| && r[i] != c[i]) == {};
    }
  }

  /** mutate: flip the gene at `point` in place when `draw` falls below
      MUTATION_PROBABILITY. */
  method Mutate(chromosome: array<int>, draw: real, point: int)
    requires draw < MUTATION_PROBABILITY ==> 0 <= point < chromosome.Length
    modifies chromosome
    ensures chromosome[..] == Mutated(old(chromosome[..]), draw, point)
    ensures draw < MUTATION_PROBABILITY ==>
      chromosome[point] == (if old(chromosome[point]) == 0 then 1 else 0) &&
      forall i :: 0 <= i < chromosome.Length && i != point ==> chromosome[i] == old(chromosome[i])
    ensures draw >= MUTATION_PROBABILITY ==> chromosome[..] == old(chromosome[..])
  {
    if draw < MUTATION_PROBABILITY {
      chromosome[point] := if chromosome[point] == 0 then 1 else 0;
    }
  }

  // ---------------------------------------------------------------------
  // Selection

  /** The walk both selection schemes make: take each weight off `n` in
      turn and stop at the first weight larger than what is left. */
  function FirstCovering(ws: seq<int>, n: real): (k: Option<nat>)
    ensures k.Some? ==> k.value < |ws|
  {
    if ws == [] then None
    else if n < ws[0] as real then Some(0)
    else Shifted(FirstCovering(ws[1..], n - ws[0] as real), 1)
  }

  function Shifted(k: Option<nat>, d: nat): Option<nat> {
    match k
    case None => None
    case Some(i) => Some(i + d)
  }

  /** The sum of the first `k` weights. */
  function PrefixSum(ws: seq<int>, k: nat): int
    requires k <= |ws|
  {
    Sum(ws[..k])
  }

  lemma PrefixSumCons(ws: seq<int>, k: nat)
    requires 0 < k <= |ws|
    ensures PrefixSum(ws, k) == ws[0] + PrefixSum(ws[1..], k - 1)
  {
    assert ws[..k][1..] == ws[1..][..k - 1];
  }

  /** The walk stops at the first index whose prefix sum exceeds `n`, and
      runs off the end exactly when no prefix sum does. */
  lemma {:induction false} FirstCoveringSpec(ws: seq<int>, n: real)
    ensures FirstCovering(ws, n).None? <==>
      forall k :: 0 < k <= |ws| ==> PrefixSum(ws, k) as real <= n
    ensures FirstCovering(ws, n).Some? ==>
      var k := FirstCovering(ws, n).value;
      n < PrefixSum(ws, k + 1) as real &&
      forall j :: 0 < j <= k ==> PrefixSum(ws, j) as real <= n
  {
    if ws != [] {
      var n' := n - ws[0] as real;
      FirstCoveringSpec(ws[1..], n');
      forall k | 0 < k <= |ws|
        ensures PrefixSum(ws, k) as real <= n <==> PrefixSum(ws[1..], k - 1) as real <= n'
      {
        PrefixSumCons(ws, k);
      }
      if n < ws[0] as real {
        PrefixSumCons(ws, 1);
      } else {
        assert PrefixSum(ws[1..], 0) == 0;
      }
    }
  }

  /** The chromosome at the chosen index, if any. */
  function ChromosomeAt(rs: seq<FitnessRecord>, k: Option<nat>): Option<Chromosome> {
    match k
    case Some(i) => if i < |rs| then Some(rs[i].chromosome) else None
    case None => None
  }

  /** random.uniform(0, total) with draw u. */
  function Uniform(total: int, u: real): real {
    0.0 + (total as real - 0.0) * u
  }

  /** A draw from uniform(0, total) lies in [0, total). */
  lemma UniformBelow(total: int, u: real)
    requires total > 0 && 0.0 <= u < 1.0
    ensures 0.0 <= Uniform(total, u) < total as real
  {
    var t := total as real;
    var d := 1.0 - u;
    assert t * d > 0.0;
    assert t * u == t - t * d;
    assert t * u >= 0.0;
  }

  /** roulette_wheel_parent_selection: walk the sorted records taking each
      fitness off n = uniform(0, fitnessSum). */
  method RouletteWheelParentSelection(populationFitnessSorted: seq<FitnessRecord>, fitnessSum: int, u: real)
    returns (parent: Option<Chromosome>)
    ensures parent == ChromosomeAt(populationFitnessSorted,
                                   FirstCovering(Fitnesses(populationFitnessSorted), Uniform(fitnessSum, u)))
  {
    ghost var ws := Fitnesses(populationFitnessSorted);
    ghost var n0 := Uniform(fitnessSum, u);
    var n := Uniform(fitnessSum, u);
    var i := 0;
    while i < |populationFitnessSorted|
      invariant 0 <= i <= |populationFitnessSorted|
      invariant FirstCovering(ws, n0) == Shifted(FirstCovering(ws[i..], n), i)
    {
      var record := populationFitnessSorted[i];
      assert ws[i..][1..] == ws[i + 1..];
      if n < record.fitness as real {
        return Some(record.chromosome);
      }
      n := n - record.fitness as real;
      i := i + 1;
    }
    assert ws[i..] == [];
    return None;
  }

  /** Roulette selection picks a chromosome of the population, the first
      whose running fitness sum exceeds the draw; it picks no one exactly when
      the draw reaches every prefix sum, which cannot happen when the draw
      is below a positive total fitness. */
  lemma RouletteSelectionSpec(rs: seq<FitnessRecord>, fitnessSum: int, u: real)
    requires 0.0 <= u < 1.0
    ensures var n := Uniform(fitnessSum, u);
      var k := FirstCovering(Fitnesses(rs), n);
      (ChromosomeAt(rs, k).None? <==>
         forall j :: 0 < j <= |rs| ==> PrefixSum(Fitnesses(rs), j) as real <= n) &&
      (k.Some? ==>
         ChromosomeAt(rs, k) == Some(rs[k.value].chromosome) &&
         n < PrefixSum(Fitnesses(rs), k.value + 1) as real &&
         forall j :: 0 < j <= k.value ==> PrefixSum(Fitnesses(rs), j) as real <= n) &&
      (fitnessSum > 0 && fitnessSum == TotalFitness(rs) ==> ChromosomeAt(rs, k).Some?)
  {
    var ws := Fitnesses(rs);
    FirstCoveringSpec(ws, Uniform(fitnessSum, u));
    if fitnessSum > 0 && fitnessSum == TotalFitness(rs) {
      UniformBelow(fitnessSum, u);
      assert ws[..|ws|] == ws;
      assert |rs| > 0;
      assert PrefixSum(ws, |rs|) == fitnessSum;
    }
  }

  /** The ranks 1, 2, ..., n. */
  function Ranks(n: nat): (rs: seq<int>)
    ensures |rs| == n && forall i :: 0 <= i < n ==> rs[i] == i + 1
  {
    seq(n, i => i + 1)
  }

  function Triangle(k: int): int {
    k * (k + 1) / 2
  }

  lemma TriangleStep(k: int)
    ensures Triangle(k + 1) == Triangle(k) + k + 1
  {
    assert (k + 1) * (k + 2) == k * (k + 1) + 2 * (k + 1);
  }

  /** The first k ranks sum to k(k + 1)/2. */
  lemma {:induction false} RankPrefix(n: nat, k: nat)
    requires k <= n
    ensures PrefixSum(Ranks(n), k) == Triangle(k)
  {
    if k > 0 {
      RankPrefix(n, k - 1);
      assert Ranks(n)[..k] == Ranks(n)[..k - 1] + [k];
      SumConcat(Ranks(n)[..k - 1], [k]);
      assert k * (k + 1) == (k - 1) * k + 2 * k;
    }
  }

  /** rank_parent_selection: rank the sorted records 1..N, draw
      n = uniform(0, N(N + 1)/2) and walk taking each rank off n. */
  method RankParentSelection(populationFitnessSorted: seq<FitnessRecord>, u: real)
    returns (parent: Option<Chromosome>)
    requires 0.0 <= u < 1.0
    ensures parent == ChromosomeAt(populationFitnessSorted,
      FirstCovering(Ranks(|populationFitnessSorted|), Uniform(Triangle(|populationFitnessSorted|), u)))
    ensures parent.Some? <==> |populationFitnessSorted| > 0
  {
    var size := |populationFitnessSorted|;
    var rankList: seq<(int, Chromosome)> := [];
    var currentRank := 1;
    var sumRank := 0;
    for i := 0 to size
      invariant |rankList| == i && currentRank == i + 1 && sumRank == Triangle(i)
      invariant forall k :: 0 <= k < i ==> rankList[k] == (k + 1, populationFitnessSorted[k].chromosome)
    {
      rankList := rankList + [(currentRank, populationFitnessSorted[i].chromosome)];
      TriangleStep(i);
      sumRank := sumRank + currentRank;
      currentRank := currentRank + 1;
    }
    ghost var ws := Ranks(size);
    ghost var n0 := Uniform(sumRank, u);
    RankSelectionSpec(size, u);
    var n := Uniform(sumRank, u);
    var i := 0;
    while i < size
      invariant 0 <= i <= size
      invariant FirstCovering(ws, n0) == Shifted(FirstCovering(ws[i..], n), i)
    {
      var (rank, chromosome) := rankList[i];
      assert ws[i..][1..] == ws[i + 1..];
      if n < rank as real {
        return Some(chromosome);
      }
      n := n - rank as real;
      i := i + 1;
    }
    assert ws[i..] == [];
    return None;
  }

  /** Rank selection with N records: the walk returns None exactly when
      N = 0; otherwise it picks index k - 1 for the least k with
      n < k(k + 1)/2. */
  lemma RankSelectionSpec(size: nat, u: real)
    requires 0.0 <= u < 1.0
    ensures var n := Uniform(Triangle(size), u);
      var k := FirstCovering(Ranks(size), n);
      (k.Some? <==> size > 0) &&
      (k.Some? ==> n < Triangle(k.value + 1) as real &&
                   forall j :: 0 < j <= k.value ==> Triangle(j) as real <= n)
  {
    var n := Uniform(Triangle(size), u);
    var ws := Ranks(size);
    FirstCoveringSpec(ws, n);
    forall j | 0 <= j <= size ensures PrefixSum(ws, j) == Triangle(j) {
      RankPrefix(size, j);
    }
    if size > 0 {
      assert Triangle(size) > 0 by {
        assert size * (size + 1) >= 2;
      }
      UniformBelow(Triangle(size), u);
    }
  }
}
