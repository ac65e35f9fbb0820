/** The generation loop of the pattern search (main.py): evaluate the
    population, keep the best-ever record, stop on stagnation, and breed the
    next population from the elite and mutated crossover children. */
module Search {
  import opened Wrappers
  import opened CellularAutomaton
  import opened GeneticAlgorithm

  /** The random draws one crossover pair consumes: two roulette draws in
      [0, 1), the cut point, and for each child the mutation draw and the
      gene position randint would give. */
  datatype PairDraw = PairDraw(
    selection1: real, selection2: real, cut: int,
    mutation1: real, point1: int, mutation2: real, point2: int)

  predicate DrawOk(d: PairDraw) {
    0.0 <= d.selection1 < 1.0 && 0.0 <= d.selection2 < 1.0 &&
    0 <= d.cut < CHROMOSOME_LENGTH &&
    0 <= d.point1 < CHROMOSOME_LENGTH && 0 <= d.point2 < CHROMOSOME_LENGTH
  }

  /** The draws of one generation's breeding: one per crossover pair. */
  predicate PairDrawsOk(ds: seq<PairDraw>) {
    forall i :: 0 <= i < |ds| ==> DrawOk(ds[i])
  }

  /** The draws of the whole run: one breeding per generation. */
  predicate RunDrawsOk(draws: seq<seq<PairDraw>>) {
    |draws| == MAX_GENERATIONS &&
    forall g :: 0 <= g < |draws| ==> |draws[g]| == POPULATION_SIZE / 2 && PairDrawsOk(draws[g])
  }

  predicate IsPopulation(population: seq<Chromosome>) {
    |population| == POPULATION_SIZE && forall i :: 0 <= i < |population| ==> IsChromosome(population[i])
  }

  predicate RecordsOk(sorted: seq<FitnessRecord>) {
    forall i :: 0 <= i < |sorted| ==> IsChromosome(sorted[i].chromosome)
  }

  // ---------------------------------------------------------------------
  // Breeding

  /** The parent roulette selection picks with draw `u`. */
  function Parent(sorted: seq<FitnessRecord>, fitnessSum: int, u: real): (p: Option<Chromosome>)
    ensures RecordsOk(sorted) && p.Some? ==> IsChromosome(p.value)
  {
    ChromosomeAt(sorted, FirstCovering(Fitnesses(sorted), Uniform(fitnessSum, u)))
  }

  /** The two children of parents `p1` and `p2`: crossover at the drawn
      cut, then mutate each child with its own draw. */
  function Offspring(p1: Chromosome, p2: Chromosome, d: PairDraw): (r: (Chromosome, Chromosome))
    requires IsChromosome(p1) && IsChromosome(p2) && DrawOk(d)
    ensures IsChromosome(r.0) && IsChromosome(r.1)
  {
    CrossoverSpec(p1, p2, d.cut);
    var c := Crossover(p1, p2, d.cut);
    MutatedSpec(c.0, d.mutation1, d.point1);
    MutatedSpec(c.1, d.mutation2, d.point2);
    (Mutated(c.0, d.mutation1, d.point1), Mutated(c.1, d.mutation2, d.point2))
  }

  /** The children of one pair, or None when either selection picks no one
      (crossover then fails on the missing parent). */
  function Children(sorted: seq<FitnessRecord>, fitnessSum: int, d: PairDraw): (r: Brood)
    requires RecordsOk(sorted) && DrawOk(d)
    ensures r.None? <==>
      Parent(sorted, fitnessSum, d.selection1).None? || Parent(sorted, fitnessSum, d.selection2).None?
    ensures BroodOk(r)
  {
    var p1 := Parent(sorted, fitnessSum, d.selection1);
    var p2 := Parent(sorted, fitnessSum, d.selection2);
    if p1.None? || p2.None? then None else Some(Offspring(p1.value, p2.value, d))
  }

  /** One pair's outcome: its two children, or None when a selection failed. */
  type Brood = Option<(Chromosome, Chromosome)>

  predicate BroodOk(b: Brood) {
    b.Some? ==> IsChromosome(b.value.0) && IsChromosome(b.value.1)
  }

  /** The outcome of every pair of one generation's breeding, in order. */
  function Broods(sorted: seq<FitnessRecord>, fitnessSum: int, ds: seq<PairDraw>): (bs: seq<Brood>)
    requires RecordsOk(sorted) && PairDrawsOk(ds)
    ensures |bs| == |ds| && forall t :: 0 <= t < |ds| ==> bs[t] == Children(sorted, fitnessSum, ds[t])
  {
    seq(|ds|, t requires 0 <= t < |ds| => Children(sorted, fitnessSum, ds[t]))
  }

  /** Appending the pairs' children to `acc`, pair by pair, stopping as soon
      as the population is full; None at the first pair that failed. */
  function Refill(bs: seq<Brood>, acc: seq<Chromosome>): Option<seq<Chromosome>>
    decreases |bs|
  {
    if bs == [] then Some(acc)
    else if bs[0].None? then None
    else
      var a, b := bs[0].value.0, bs[0].value.1;
      if |acc| + 1 == POPULATION_SIZE then Some(acc + [a])
      else if |acc| + 2 == POPULATION_SIZE then Some(acc + [a, b])
      else Refill(bs[1..], acc + [a, b])
  }

  /** The fittest ELITISM_SELECTION chromosomes, fittest first. */
  function Elites(sorted: seq<FitnessRecord>): (es: seq<Chromosome>)
    requires |sorted| == POPULATION_SIZE
    ensures |es| == ELITISM_SELECTION
  {
    seq(ELITISM_SELECTION, i requires 0 <= i < ELITISM_SELECTION => sorted[POPULATION_SIZE - 1 - i].chromosome)
  }

  /** The next population: elites, then children. */
  function NextPopulation(sorted: seq<FitnessRecord>, fitnessSum: int, ds: seq<PairDraw>): Option<seq<Chromosome>>
    requires |sorted| == POPULATION_SIZE && RecordsOk(sorted) && PairDrawsOk(ds)
  {
    Refill(Broods(sorted, fitnessSum, ds), Elites(sorted))
  }

  /** Every pair's two children, in order; None when some pair failed. */
  function AllChildren(bs: seq<Brood>): (r: Option<seq<Chromosome>>)
    ensures r.Some? ==> |r.value| == 2 * |bs|
    decreases |bs|
  {
    if bs == [] then Some([])
    else
      var rest := AllChildren(bs[1..]);
      if bs[0].None? || rest.None? then None
      else Some([bs[0].value.0, bs[0].value.1] + rest.value)
  }

  /** The children are missing exactly when some pair failed. */
  lemma {:induction false} AllChildrenFail(bs: seq<Brood>)
    ensures AllChildren(bs).None? <==> exists t :: 0 <= t < |bs| && bs[t].None?
  {
    if bs != [] {
      var rest := bs[1..];
      AllChildrenFail(rest);
      if bs[0].Some? {
        if AllChildren(rest).None? {
          var t :| 0 <= t < |rest| && rest[t].None?;
          assert bs[t + 1] == rest[t];
        } else {
          forall t | 0 < t < |bs| ensures bs[t].Some? {
            assert bs[t] == rest[t - 1];
          }
        }
      }
    }
  }

  /** The children of pairs that breed chromosomes of the search are
      chromosomes of the search. */
  lemma {:induction false} AllChildrenChromosomes(bs: seq<Brood>)
    requires forall t :: 0 <= t < |bs| ==> BroodOk(bs[t])
    ensures var r := AllChildren(bs);
      r.Some? ==> forall i :: 0 <= i < |r.value| ==> IsChromosome(r.value[i])
  {
    if bs != [] {
      var rest := bs[1..];
      assert forall t :: 0 <= t < |rest| ==> rest[t] == bs[t + 1];
      AllChildrenChromosomes(rest);
      var r := AllChildren(rest);
      if bs[0].Some? && r.Some? {
        assert BroodOk(bs[0]);
        var cs := [bs[0].value.0, bs[0].value.1] + r.value;
        forall i | 2 <= i < |cs| ensures IsChromosome(cs[i]) {
          assert cs[i] == r.value[i - 2];
        }
      }
    }
  }

  /** With every pair needed to fill up, Refill appends the first
      POPULATION_SIZE - |acc| children of the pairs. */
  lemma {:induction false} RefillTakesChildren(bs: seq<Brood>, acc: seq<Chromosome>)
    requires |acc| < POPULATION_SIZE && |acc| + 2 * (|bs| - 1) < POPULATION_SIZE <= |acc| + 2 * |bs|
    ensures Refill(bs, acc) ==
      match AllChildren(bs)
      case None => None
      case Some(cs) => Some(acc + cs[..POPULATION_SIZE - |acc|])
  {
    if bs[0].Some? {
      var a, b := bs[0].value.0, bs[0].value.1;
      if |acc| + 1 == POPULATION_SIZE || |acc| + 2 == POPULATION_SIZE {
        assert bs[1..] == [];
        assert [a, b] + [] == [a, b];
        assert AllChildren(bs) == Some([a, b]);
        assert [a, b][..1] == [a];
      } else {
        var acc' := acc + [a, b];
        RefillTakesChildren(bs[1..], acc');
        var rest := AllChildren(bs[1..]);
        if rest.Some? {
          var k := POPULATION_SIZE - |acc|;
          var cs := [a, b] + rest.value;
          assert AllChildren(bs) == Some(cs);
          assert cs[..k] == [a, b] + rest.value[..k - 2];
          ConcatAssoc(acc, [a, b], rest.value[..k - 2]);
        }
      }
    }
  }

  lemma AppendTwo(acc: seq<Chromosome>, a: Chromosome, b: Chromosome)
    ensures acc + [a, b] == acc + [a] + [b]
  {
  }

  lemma ConcatAssoc(x: seq<Chromosome>, y: seq<Chromosome>, z: seq<Chromosome>)
    ensures x + (y + z) == (x + y) + z
  {
  }

  /** Refilling the elites `es` from one generation's pair outcomes gives
      `es` followed by the first POPULATION_SIZE - |es| children: a
      population of the search starting with `es`. It fails exactly when
      some pair failed. */
  lemma RefillSpec(bs: seq<Brood>, es: seq<Chromosome>)
    requires |es| == ELITISM_SELECTION && forall i :: 0 <= i < |es| ==> IsChromosome(es[i])
    requires |bs| == POPULATION_SIZE / 2 && forall t :: 0 <= t < |bs| ==> BroodOk(bs[t])
    ensures Refill(bs, es) ==
      match AllChildren(bs)
      case None => None
      case Some(cs) => Some(es + cs[..POPULATION_SIZE - ELITISM_SELECTION])
    ensures Refill(bs, es).None? <==> exists t :: 0 <= t < |bs| && bs[t].None?
    ensures var r := Refill(bs, es);
      r.Some? ==> IsPopulation(r.value) && r.value[..ELITISM_SELECTION] == es
  {
    ElitismIsOne();
    RefillTakesChildren(bs, es);
    AllChildrenFail(bs);
    AllChildrenChromosomes(bs);
    var children := AllChildren(bs);
    if children.Some? {
      var r := es + children.value[..POPULATION_SIZE - ELITISM_SELECTION];
      forall i | 0 <= i < |r| ensures IsChromosome(r[i]) {
        if i < ELITISM_SELECTION {
          assert r[i] == es[i];
        } else {
          assert r[i] == children.value[i - ELITISM_SELECTION];
        }
      }
      assert r[..ELITISM_SELECTION] == es;
    }
  }

  /** While the fitness sum is the positive total of the records, every
      selection picks a parent, so every pair breeds. */
  lemma BroodsSucceed(sorted: seq<FitnessRecord>, fitnessSum: int, ds: seq<PairDraw>)
    requires RecordsOk(sorted) && PairDrawsOk(ds)
    requires fitnessSum > 0 && fitnessSum == TotalFitness(sorted)
    ensures forall t :: 0 <= t < |ds| ==> Children(sorted, fitnessSum, ds[t]).Some?
  {
    forall t | 0 <= t < |ds| ensures Children(sorted, fitnessSum, ds[t]).Some? {
      RouletteSelectionSpec(sorted, fitnessSum, ds[t].selection1);
      RouletteSelectionSpec(sorted, fitnessSum, ds[t].selection2);
    }
  }

  /** The next population is the elites followed by the first
      POPULATION_SIZE - ELITISM_SELECTION children: exactly POPULATION_SIZE
      chromosomes of the search, the fittest records' chromosomes first,
      fittest first. It fails exactly when some pair's selection picks no
      one, which cannot happen while the fitness sum is the positive total
      of the records. */
  lemma NextPopulationSpec(sorted: seq<FitnessRecord>, fitnessSum: int, ds: seq<PairDraw>)
    requires |sorted| == POPULATION_SIZE && RecordsOk(sorted)
    requires |ds| == POPULATION_SIZE / 2 && PairDrawsOk(ds)
    ensures NextPopulation(sorted, fitnessSum, ds) ==
      match AllChildren(Broods(sorted, fitnessSum, ds))
      case None => None
      case Some(cs) => Some(Elites(sorted) + cs[..POPULATION_SIZE - ELITISM_SELECTION])
    ensures NextPopulation(sorted, fitnessSum, ds).None? <==>
      exists t :: 0 <= t < |ds| && Children(sorted, fitnessSum, ds[t]).None?
    ensures var r := NextPopulation(sorted, fitnessSum, ds);
      r.Some? ==>
        IsPopulation(r.value) &&
        forall i :: 0 <= i < ELITISM_SELECTION ==> r.value[i] == sorted[POPULATION_SIZE - 1 - i].chromosome
    ensures fitnessSum > 0 && fitnessSum == TotalFitness(sorted) ==> NextPopulation(sorted, fitnessSum, ds).Some?
  {
    var es := Elites(sorted);
    var bs := Broods(sorted, fitnessSum, ds);
    forall i | 0 <= i < |es| ensures IsChromosome(es[i]) {
      assert es[i] == sorted[POPULATION_SIZE - 1 - i].chromosome;
    }
    RefillSpec(bs, es);
    var r := Refill(bs, es);
    if r.Some? {
      forall i | 0 <= i < ELITISM_SELECTION ensures r.value[i] == sorted[POPULATION_SIZE - 1 - i].chromosome {
        assert r.value[i] == r.value[..ELITISM_SELECTION][i];
      }
    }
    if fitnessSum > 0 && fitnessSum == TotalFitness(sorted) {
      BroodsSucceed(sorted, fitnessSum, ds);
    }
  }

  /** One step of Refill at pair `pair`. */
  lemma RefillStep(bs: seq<Brood>, pair: nat, acc: seq<Chromosome>)
    requires pair < |bs|
    ensures Refill(bs[pair..], acc) ==
      if bs[pair].None? then None
      else if |acc| + 1 == POPULATION_SIZE then Some(acc + [bs[pair].value.0])
      else if |acc| + 2 == POPULATION_SIZE then Some(acc + [bs[pair].value.0, bs[pair].value.1])
      else Refill(bs[pair + 1..], acc + [bs[pair].value.0, bs[pair].value.1])
  {
    assert bs[pair..][0] == bs[pair] && bs[pair..][1..] == bs[pair + 1..];
  }

  /** mutate on a fresh array holding `child`, as np.concatenate returns. */
  method MutatedChild(child: Chromosome, draw: real, point: int) returns (genes: Chromosome)
    requires draw < MUTATION_PROBABILITY ==> 0 <= point < |child|
    ensures genes == Mutated(child, draw, point)
  {
    var a := new int[|child|](k requires 0 <= k < |child| => child[k]);
    assert a[..] == child;
    Mutate(a, draw, point);
    genes := a[..];
  }

  /** Lines 51-68 of main: the elites, then selection, crossover and mutation
      of each child in its own array, stopping as soon as the population is
      full. None is the run where a selection picked no parent. */
  method BuildNextPopulation(populationFitnessSorted: seq<FitnessRecord>, fitnessSum: int, ds: seq<PairDraw>)
    returns (next: Option<seq<Chromosome>>)
    requires |populationFitnessSorted| == POPULATION_SIZE && RecordsOk(populationFitnessSorted)
    requires |ds| == POPULATION_SIZE / 2 && PairDrawsOk(ds)
    ensures next == NextPopulation(populationFitnessSorted, fitnessSum, ds)
  {
    ElitismIsOne();
    var sorted := populationFitnessSorted;
    var populationNew: seq<Chromosome> := [];
    for i := 0 to ELITISM_SELECTION
      invariant populationNew == Elites(sorted)[..i]
    {
      populationNew := populationNew + [sorted[POPULATION_SIZE - 1 - i].chromosome];
    }
    assert Elites(sorted)[..ELITISM_SELECTION] == Elites(sorted);
    ghost var bs := Broods(sorted, fitnessSum, ds);
    assert bs[0..] == bs;
    var pair := 0;
    while pair < POPULATION_SIZE / 2
      invariant 0 <= pair <= POPULATION_SIZE / 2
      invariant |populationNew| == ELITISM_SELECTION + 2 * pair
      invariant NextPopulation(sorted, fitnessSum, ds) == Refill(bs[pair..], populationNew)
    {
      var d := ds[pair];
      RefillStep(bs, pair, populationNew);
      var parent1 := RouletteWheelParentSelection(sorted, fitnessSum, d.selection1);
      var parent2 := RouletteWheelParentSelection(sorted, fitnessSum, d.selection2);
      if parent1.None? || parent2.None? {
        return None;
      }
      var (child1, child2) := Crossover(parent1.value, parent2.value, d.cut);
      CrossoverSpec(parent1.value, parent2.value, d.cut);
      ghost var children := Children(sorted, fitnessSum, d);
      ghost var before := populationNew;
      var genes1 := MutatedChild(child1, d.mutation1, d.point1);
      assert children.value.0 == genes1;
      populationNew := populationNew + [genes1];
      if |populationNew| == POPULATION_SIZE {
        break;
      }
      var genes2 := MutatedChild(child2, d.mutation2, d.point2);
      assert children.value.1 == genes2;
      AppendTwo(before, genes1, genes2);
      populationNew := populationNew + [genes2];
      if |populationNew| == POPULATION_SIZE {
        break;
      }
      pair := pair + 1;
    }
    if pair == POPULATION_SIZE / 2 {
      assert bs[pair..] == [];
    }
    return Some(populationNew);
  }

  // ---------------------------------------------------------------------
  // The generation loop

  /** The best-ever fitness, chromosome and board, and the count of
      generations since the last improvement. */
  datatype Best = Best(fitness: int, chromosome: Chromosome, board: BoardState, noImprovements: int)

  /** One generation's update of the best-ever record from its sorted
      records: the last record is the generation's maximum. */
  function TrackBest(best: Best, sorted: seq<FitnessRecord>): (r: Best)
    requires |sorted| > 0
    ensures var top := sorted[|sorted| - 1];
      (top.fitness > best.fitness ==> r == Best(top.fitness, top.chromosome, top.board, 1)) &&
      (top.fitness <= best.fitness ==> r == best.(noImprovements := best.noImprovements + 1))
    ensures best.fitness <= r.fitness
    ensures SortedByFitness(sorted) ==> forall i :: 0 <= i < |sorted| ==> sorted[i].fitness <= r.fitness
  {
    var top := sorted[|sorted| - 1];
    if top.fitness > best.fitness then Best(top.fitness, top.chromosome, top.board, 1)
    else best.(noImprovements := best.noImprovements + 1)
  }

  /** The record of a run: the best-ever record, how many generations were
      evaluated, each generation's maximum fitness, and whether the run
      ended on a selection that picked no parent. */
  datatype Outcome = Outcome(best: Best, generations: nat, fitnessMaxima: seq<int>, selectionFailed: bool)

  /** A population's sorted records: one per chromosome of the search,
      ascending by fitness, with the population's total fitness. */
  lemma SortedRecordsOk(population: seq<Chromosome>)
    requires IsPopulation(population)
    ensures forall i :: 0 <= i < |population| ==> Evaluable(population[i])
    ensures var s := SortByFitness(Evaluations(population));
      |s| == POPULATION_SIZE && RecordsOk(s) && SortedByFitness(s) &&
      TotalFitness(s) == TotalFitness(Evaluations(population))
  {
    forall i | 0 <= i < |population| ensures Evaluable(population[i]) {
      ChromosomeEvaluable(population[i]);
    }
    var es := Evaluations(population);
    var s := SortByFitness(es);
    SortSpec(es);
    forall i | 0 <= i < |s| ensures IsChromosome(s[i].chromosome) {
      assert s[i] in multiset(es);
      var j :| 0 <= j < |es| && es[j] == s[i];
      assert s[i].chromosome == population[j];
    }
  }

  /** What one generation ends in: the updated best-ever record, the
      generation's maximum fitness, whether the counter reached
      MAX_GENERATIONS_WITHOUT_IMPROVEMENT, and otherwise the next
      population (None when a selection picked no parent). */
  datatype StepResult = StepResult(best: Best, fitnessMax: int, stagnated: bool, next: Option<seq<Chromosome>>)

  /** What the loop relies on from one generation that starts from the
      best-ever record `best` and ends in `st`: the best fitness never falls,
      is at least the generation's maximum, and changes only to that
      maximum; the counter restarts at 1 or goes up by one; the generation
      stagnates exactly when the counter reaches
      MAX_GENERATIONS_WITHOUT_IMPROVEMENT, and then breeds nothing; a bred
      population is a population of the search. */
  predicate StepUpdates(best: Best, st: StepResult) {
    best.fitness <= st.best.fitness && st.fitnessMax <= st.best.fitness &&
    (st.best.fitness == best.fitness || st.best.fitness == st.fitnessMax) &&
    (st.best.noImprovements == 1 || st.best.noImprovements == best.noImprovements + 1) &&
    (st.stagnated <==> st.best.noImprovements >= MAX_GENERATIONS_WITHOUT_IMPROVEMENT) &&
    (st.stagnated ==> st.next.None?) &&
    (st.next.Some? ==> IsPopulation(st.next.value))
  }

  /** One pass of the loop body (main.py:26-70). */
  function GenerationStep(population: seq<Chromosome>, best: Best, ds: seq<PairDraw>): (st: StepResult)
    requires IsPopulation(population) && |ds| == POPULATION_SIZE / 2 && PairDrawsOk(ds)
    ensures StepUpdates(best, st)
  {
    SortedRecordsOk(population);
    var sorted := SortByFitness(Evaluations(population));
    var best' := TrackBest(best, sorted);
    var fitnessMax := sorted[POPULATION_SIZE - 1].fitness;
    if best'.noImprovements >= MAX_GENERATIONS_WITHOUT_IMPROVEMENT then
      StepResult(best', fitnessMax, true, None)
    else
      NextPopulationSpec(sorted, TotalFitness(sorted), ds);
      StepResult(best', fitnessMax, false, NextPopulation(sorted, TotalFitness(sorted), ds))
  }

  /** A generation's body as a value: the loop below is written for any step
      keeping StepUpdates, and the search instantiates it with
      GenerationStep. */
  type Step = (seq<Chromosome>, Best, seq<PairDraw>) --> StepResult

  ghost predicate StepOk(step: Step) {
    forall population, best, ds ::
      IsPopulation(population) && |ds| == POPULATION_SIZE / 2 && PairDrawsOk(ds) ==>
        step.requires(population, best, ds) && StepUpdates(best, step(population, best, ds))
  }

  lemma GenerationStepOk()
    ensures StepOk(GenerationStep)
  {
  }

  /** The loop from generation `generation` on (main.py:25-70): one step per
      generation, recording its maximum, until stagnation, a failed
      selection or MAX_GENERATIONS generations. */
  function Loop(step: Step, population: seq<Chromosome>, best: Best, generation: nat, fitnessMaxima: seq<int>,
                draws: seq<seq<PairDraw>>): Outcome
    requires StepOk(step) && IsPopulation(population) && generation <= MAX_GENERATIONS && RunDrawsOk(draws)
    decreases MAX_GENERATIONS - generation
  {
    if generation == MAX_GENERATIONS then Outcome(best, generation, fitnessMaxima, false)
    else
      var st := step(population, best, draws[generation]);
      var maxima' := fitnessMaxima + [st.fitnessMax];
      if st.stagnated then Outcome(st.best, generation + 1, maxima', false)
      else if st.next.None? then Outcome(st.best, generation + 1, maxima', true)
      else Loop(step, st.next.value, st.best, generation + 1, maxima', draws)
  }

  /** The loop after one generation whose result is `st`: it stops on
      stagnation or on a failed selection, and otherwise goes on from the
      next population. */
  lemma LoopNext(step: Step, population: seq<Chromosome>, best: Best, generation: nat, fitnessMaxima: seq<int>,
                 draws: seq<seq<PairDraw>>, st: StepResult)
    requires StepOk(step) && IsPopulation(population) && generation < MAX_GENERATIONS && RunDrawsOk(draws)
    requires st == step(population, best, draws[generation])
    ensures st.stagnated || st.next.None? ==>
      Loop(step, population, best, generation, fitnessMaxima, draws) ==
        Outcome(st.best, generation + 1, fitnessMaxima + [st.fitnessMax], !st.stagnated)
    ensures !st.stagnated && st.next.Some? ==>
      IsPopulation(st.next.value) &&
      Loop(step, population, best, generation, fitnessMaxima, draws) ==
        Loop(step, st.next.value, st.best, generation + 1, fitnessMaxima + [st.fitnessMax], draws)
  {
  }

  /** From a state of the loop, the run evaluates at least one more
      generation and at most MAX_GENERATIONS in all, records one maximum per
      generation, never lowers the best fitness, ends with the best fitness
      at least every generation's maximum and equal to the previous best or
      one of the new maxima, and when it ends early without a failed
      selection the counter has reached MAX_GENERATIONS_WITHOUT_IMPROVEMENT. */
  lemma {:induction false} LoopSpec(step: Step, population: seq<Chromosome>, best: Best, generation: nat,
                                    fitnessMaxima: seq<int>, draws: seq<seq<PairDraw>>)
    requires StepOk(step) && IsPopulation(population) && generation <= MAX_GENERATIONS && RunDrawsOk(draws)
    requires |fitnessMaxima| == generation
    requires forall i :: 0 <= i < |fitnessMaxima| ==> fitnessMaxima[i] <= best.fitness
    requires 0 <= best.noImprovements < MAX_GENERATIONS_WITHOUT_IMPROVEMENT
    ensures var r := Loop(step, population, best, generation, fitnessMaxima, draws);
      generation <= r.generations <= MAX_GENERATIONS &&
      (generation < MAX_GENERATIONS ==> generation < r.generations) &&
      |r.fitnessMaxima| == r.generations && r.fitnessMaxima[..generation] == fitnessMaxima &&
      best.fitness <= r.best.fitness &&
      (forall i :: 0 <= i < |r.fitnessMaxima| ==> r.fitnessMaxima[i] <= r.best.fitness) &&
      (r.best.fitness == best.fitness || r.best.fitness in r.fitnessMaxima[generation..]) &&
      0 <= r.best.noImprovements <= MAX_GENERATIONS_WITHOUT_IMPROVEMENT &&
      (r.best.noImprovements == MAX_GENERATIONS_WITHOUT_IMPROVEMENT ==> !r.selectionFailed) &&
      (!r.selectionFailed && r.generations < MAX_GENERATIONS ==>
         r.best.noImprovements == MAX_GENERATIONS_WITHOUT_IMPROVEMENT)
    decreases MAX_GENERATIONS - generation
  {
    if generation < MAX_GENERATIONS {
      var st := step(population, best, draws[generation]);
      var maxima' := fitnessMaxima + [st.fitnessMax];
      assert maxima'[..generation] == fitnessMaxima;
      assert maxima'[generation..] == [st.fitnessMax];
      if !st.stagnated && st.next.Some? {
        LoopSpec(step, st.next.value, st.best, generation + 1, maxima', draws);
        var r := Loop(step, st.next.value, st.best, generation + 1, maxima', draws);
        assert r.fitnessMaxima[..generation] == r.fitnessMaxima[..generation + 1][..generation];
        if r.best.fitness != best.fitness && r.best.fitness != st.best.fitness {
          var k :| generation + 1 <= k < |r.fitnessMaxima| && r.fitnessMaxima[k] == r.best.fitness;
          assert r.fitnessMaxima[generation..][k - generation] == r.best.fitness;
        } else if r.best.fitness != best.fitness {
          assert r.fitnessMaxima[generation] == maxima'[generation] == st.fitnessMax;
          assert r.fitnessMaxima[generation..][0] == st.fitnessMax;
        }
      }
    }
  }

  /** Before the first generation: best fitness 0, the first chromosome
      and its freshly built board. */
  function InitialBest(population: seq<Chromosome>): Best
    requires IsPopulation(population)
  {
    ChromosomeEvaluable(population[0]);
    Best(0, population[0], InitialState(population[0], BOUNDING_BOX_WIDTH), 0)
  }

  /** The whole search from its random draws. */
  function Run(initialDraws: seq<seq<real>>, draws: seq<seq<PairDraw>>): Outcome
    requires |initialDraws| == POPULATION_SIZE
    requires forall i :: 0 <= i < |initialDraws| ==> |initialDraws[i]| == CHROMOSOME_LENGTH
    requires RunDrawsOk(draws)
  {
    var population := CreateRandomPopulation(initialDraws);
    GenerationStepOk();
    Loop(GenerationStep, population, InitialBest(population), 0, [], draws)
  }

  /** The run's best fitness is 0 or a generation's maximum, and at least
      every generation's maximum; between 1 and MAX_GENERATIONS generations
      are evaluated; a run that stops early without a failed selection has
      gone MAX_GENERATIONS_WITHOUT_IMPROVEMENT generations without improving. */
  lemma RunSpec(initialDraws: seq<seq<real>>, draws: seq<seq<PairDraw>>)
    requires |initialDraws| == POPULATION_SIZE
    requires forall i :: 0 <= i < |initialDraws| ==> |initialDraws[i]| == CHROMOSOME_LENGTH
    requires RunDrawsOk(draws)
    ensures var r := Run(initialDraws, draws);
      1 <= r.generations <= MAX_GENERATIONS && |r.fitnessMaxima| == r.generations &&
      0 <= r.best.fitness &&
      (r.best.fitness == 0 || r.best.fitness in r.fitnessMaxima) &&
      (forall i :: 0 <= i < r.generations ==> r.fitnessMaxima[i] <= r.best.fitness) &&
      (!r.selectionFailed && r.generations < MAX_GENERATIONS ==>
         r.best.noImprovements == MAX_GENERATIONS_WITHOUT_IMPROVEMENT)
  {
    var population := CreateRandomPopulation(initialDraws);
    GenerationStepOk();
    LoopSpec(GenerationStep, population, InitialBest(population), 0, [], draws);
    var r := Run(initialDraws, draws);
    assert r.fitnessMaxima[0..] == r.fitnessMaxima;
  }

  /** One pass of the loop body (main.py:26-70): evaluate and sort the
      population, update the best-ever record, and unless the search has
      stagnated breed the next population. */
  method RunGeneration(population: seq<Chromosome>, best: Best, ds: seq<PairDraw>) returns (st: StepResult)
    requires IsPopulation(population) && |ds| == POPULATION_SIZE / 2 && PairDrawsOk(ds)
    ensures st == GenerationStep(population, best, ds)
  {
    SortedRecordsOk(population);
    var populationFitnessSorted, fitnessSum := CalculatePopulationFitness(population);
    var top := populationFitnessSorted[POPULATION_SIZE - 1];
    var best' := best;
    if top.fitness > best.fitness {
      best' := Best(top.fitness, top.chromosome, top.board, 1);
    } else {
      best' := best.(noImprovements := best.noImprovements + 1);
    }
    if best'.noImprovements >= MAX_GENERATIONS_WITHOUT_IMPROVEMENT {
      return StepResult(best', top.fitness, true, None);
    }
    var next := BuildNextPopulation(populationFitnessSorted, fitnessSum, ds);
    st := StepResult(best', top.fitness, false, next);
  }

  /** main.py lines 20-24: the first population and the best-ever record
      before any generation, whose board is the first chromosome's. */
  method StartSearch(initialDraws: seq<seq<real>>) returns (population: seq<Chromosome>, best: Best)
    requires |initialDraws| == POPULATION_SIZE
    requires forall i :: 0 <= i < |initialDraws| ==> |initialDraws[i]| == CHROMOSOME_LENGTH
    ensures population == CreateRandomPopulation(initialDraws) && IsPopulation(population)
    ensures best == InitialBest(population)
  {
    population := CreateRandomPopulation(initialDraws);
    var bestChromosome := population[0];
    ChromosomeEvaluable(bestChromosome);
    var board := new Board(bestChromosome, BOUNDING_BOX_WIDTH);
    best := Best(0, bestChromosome, board.State(), 0);
  }

  /** main.py lines 20-70: the search loop over the generations. */
  method RunSearch(initialDraws: seq<seq<real>>, draws: seq<seq<PairDraw>>) returns (outcome: Outcome)
    requires |initialDraws| == POPULATION_SIZE
    requires forall i :: 0 <= i < |initialDraws| ==> |initialDraws[i]| == CHROMOSOME_LENGTH
    requires RunDrawsOk(draws)
    ensures outcome == Run(initialDraws, draws)
  {
    var population, best := StartSearch(initialDraws);
    GenerationStepOk();
    outcome := SearchLoop(GenerationStep, population, best, draws);
  }

  /** main.py lines 25-70: at most MAX_GENERATIONS passes of the loop body,
      leaving early on stagnation or on a failed selection. The run is stated
      for a `step` that agrees with GenerationStep, which the caller passes. */
  method SearchLoop(ghost step: Step, population0: seq<Chromosome>, best0: Best, draws: seq<seq<PairDraw>>)
    returns (outcome: Outcome)
    requires StepOk(step) && IsPopulation(population0) && RunDrawsOk(draws)
    requires forall population, best, ds {:trigger GenerationStep(population, best, ds)} ::
      IsPopulation(population) && |ds| == POPULATION_SIZE / 2 && PairDrawsOk(ds) ==>
        step.requires(population, best, ds) && step(population, best, ds) == GenerationStep(population, best, ds)
    ensures outcome == Loop(step, population0, best0, 0, [], draws)
  {
    var population, best := population0, best0;
    var fitnessMaxima: seq<int> := [];
    var generations := 0;
    var selectionFailed := false;
    while generations < MAX_GENERATIONS
      invariant 0 <= generations <= MAX_GENERATIONS
      invariant IsPopulation(population)
      invariant Loop(step, population, best, generations, fitnessMaxima, draws) ==
                Loop(step, population0, best0, 0, [], draws)
    {
      var st := RunGeneration(population, best, draws[generations]);
      LoopNext(step, population, best, generations, fitnessMaxima, draws, st);
      fitnessMaxima := fitnessMaxima + [st.fitnessMax];
      best := st.best;
      generations := generations + 1;
      if st.stagnated || st.next.None? {
        selectionFailed := !st.stagnated;
        break;
      }
      population := st.next.value;
    }
    outcome := Outcome(best, generations, fitnessMaxima, selectionFailed);
  }
}
