/**
 * The training driver: one genome is scored by letting its controller drive
 * one episode of the simulation, a generation is scored genome by genome,
 * the best genome of a generation is recorded whenever it beats every
 * earlier generation, and the population is then bred into the next one.
 */
module Trainer {
  import opened Common
  import opened Brain
  import opened Environment
  import opened GeneticAlgorithm

  /** The step budget of one evaluation. */
  const MAX_STEPS := 1000

  /** The trainer's population settings. */
  const POPULATION_SIZE := 50
  const MUTATION_RATE := 0.03
  const ELITE_SIZE := 5

  // ---------------------------------------------------------------------------
  // Best of a generation and best overall
  // ---------------------------------------------------------------------------

  /** A fitness as the trainer tracks it: float('-inf') before any score, then a finite score. */
  datatype Fitness = MinusInfinity | Score(value: real)

  /** `if fitness > best: best = fitness`, with -inf below every score. */
  function Keep(best: Fitness, fitness: real): (r: Fitness)
    ensures r.Score?
    ensures best.Score? ==> r.value >= best.value
    ensures r.value >= fitness
  {
    if best.MinusInfinity? || fitness > best.value then Score(fitness) else best
  }

  /** `if current > overall: overall = current`; -inf never beats anything. */
  function Higher(overall: Fitness, current: Fitness): Fitness {
    if current.Score? then Keep(overall, current.value) else overall
  }

  /** A generation's best improves on the overall best: the condition under which a genome is saved. */
  predicate Improves(current: Fitness, overall: Fitness) {
    current.Score? && (overall.MinusInfinity? || current.value > overall.value)
  }

  /** best_fitness_current after the scores have been seen in order. */
  function GenerationBest(scores: seq<real>): Fitness
    decreases |scores|
  {
    if scores == [] then MinusInfinity
    else Keep(GenerationBest(scores[..|scores| - 1]), scores[|scores| - 1])
  }

  /** The generation best is -inf exactly for no scores, and otherwise one of the scores and at least every score. */
  lemma {:induction false} GenerationBestIsMaximum(scores: seq<real>)
    ensures GenerationBest(scores).MinusInfinity? <==> |scores| == 0
    ensures |scores| > 0 ==> GenerationBest(scores).value in scores
    ensures forall i :: 0 <= i < |scores| ==> scores[i] <= GenerationBest(scores).value
    decreases |scores|
  {
    if scores != [] {
      var front := scores[..|scores| - 1];
      GenerationBestIsMaximum(front);
      forall i | 0 <= i < |scores|
        ensures scores[i] <= GenerationBest(scores).value
      {
        if i < |scores| - 1 {
          assert scores[i] == front[i];
        }
      }
      if GenerationBest(scores) != Score(scores[|scores| - 1]) {
        assert GenerationBest(scores) == GenerationBest(front);
        assert front[..] <= scores;
      }
    }
  }

  /** list.index: the first position holding v. */
  function FirstIndexOf(s: seq<real>, v: real): (r: nat)
    requires v in s
    ensures r < |s| && s[r] == v
    ensures forall j :: 0 <= j < r ==> s[j] != v
  {
    if s[0] == v then 0 else 1 + FirstIndexOf(s[1..], v)
  }

  /**
   * The index of the genome saved for a generation, if any: a genome is saved
   * only when the generation's best beats the best overall, and then it is the
   * genome at the first position holding the generation's best score.
   */
  function SavedIndex(scores: seq<real>, overall: Fitness): (r: Option<nat>)
    ensures r.Some? <==> Improves(GenerationBest(scores), overall)
    ensures r.Some? ==> r.value < |scores|
                        && (forall j :: 0 <= j < |scores| ==> scores[j] <= scores[r.value])
                        && (forall j :: 0 <= j < r.value ==> scores[j] < scores[r.value])
                        && (overall.Score? ==> scores[r.value] > overall.value)
  {
    var current := GenerationBest(scores);
    if Improves(current, overall) then
      GenerationBestIsMaximum(scores);
      Some(FirstIndexOf(scores, current.value))
    else None
  }

  /** Every score of a generation, generation after generation. */
  function Flatten(history: seq<seq<real>>): seq<real>
    decreases |history|
  {
    if history == [] then [] else Flatten(history[..|history| - 1]) + history[|history| - 1]
  }

  /** best_fitness_overall after the given generations. */
  function OverallBest(history: seq<seq<real>>): Fitness
    decreases |history|
  {
    if history == [] then MinusInfinity
    else Higher(OverallBest(history[..|history| - 1]), GenerationBest(history[|history| - 1]))
  }

  /** Taking the larger of two bests and then a further score is the same as adding the score to the second first. */
  lemma KeepHigher(p: Fitness, q: Fitness, x: real)
    ensures Keep(Higher(p, q), x) == Higher(p, Keep(q, x))
  {
  }

  /** The best of two runs of scores is the larger of their bests. */
  lemma {:induction false} GenerationBestAppend(a: seq<real>, b: seq<real>)
    ensures GenerationBest(a + b) == Higher(GenerationBest(a), GenerationBest(b))
    decreases |b|
  {
    if b == [] {
      assert a + b == a;
    } else {
      var front, x := b[..|b| - 1], b[|b| - 1];
      assert (a + b)[..|a + b| - 1] == a + front;
      GenerationBestAppend(a, front);
      KeepHigher(GenerationBest(a), GenerationBest(front), x);
    }
  }

  /** The overall best is the best score of all generations taken together. */
  lemma {:induction false} OverallBestIsBestOfAll(history: seq<seq<real>>)
    ensures OverallBest(history) == GenerationBest(Flatten(history))
    decreases |history|
  {
    if history != [] {
      var front := history[..|history| - 1];
      OverallBestIsBestOfAll(front);
      GenerationBestAppend(Flatten(front), history[|history| - 1]);
    }
  }

  /** The overall best never goes down from one generation to the next. */
  lemma OverallBestNeverDecreases(history: seq<seq<real>>, scores: seq<real>)
    ensures OverallBest(history).Score? ==> OverallBest(history + [scores]).Score?
                                            && OverallBest(history).value <= OverallBest(history + [scores]).value
  {
    assert (history + [scores])[..|history|] == history;
  }

  // ---------------------------------------------------------------------------
  // The trainer object
  // ---------------------------------------------------------------------------

  /** A genome written to the results directory: its generation (from 1), its bits and its fitness. */
  datatype Saved = Saved(generation: nat, genome: Genome, fitness: real)

  /** Saved genomes have strictly rising fitness and the last one holds the overall best. */
  predicate SavesRising(saves: seq<Saved>, overall: Fitness) {
    && (forall i, j :: 0 <= i < j < |saves| ==> saves[i].fitness < saves[j].fitness)
    && (|saves| > 0 ==> overall == Score(saves[|saves| - 1].fitness))
  }

  /**
   * The end-of-generation bookkeeping: the overall best takes the
   * generation's best when that is higher, and only then is a genome saved,
   * the first one holding the generation's best score.
   */
  function RecordGeneration(generation: nat, population: seq<Genome>, scores: seq<real>, current: Fitness,
                            overall: Fitness, saves: seq<Saved>): (r: (Fitness, seq<Saved>))
    requires |scores| == |population| && current == GenerationBest(scores)
    ensures r.0 == Higher(overall, GenerationBest(scores))
    ensures !Improves(GenerationBest(scores), overall) ==> r.1 == saves
    ensures Improves(GenerationBest(scores), overall) ==>
              var i := SavedIndex(scores, overall).value;
              r.1 == saves + [Saved(generation, population[i], scores[i])]
    ensures SavesRising(saves, overall) ==> SavesRising(r.1, r.0)
  {
    var saved := SavedIndex(scores, overall);
    if saved.Some? then
      GenerationBestIsMaximum(scores);
      (Score(scores[saved.value]), saves + [Saved(generation, population[saved.value], scores[saved.value])])
    else (Higher(overall, current), saves)
  }

  /**
   * A saved genome comes from the generation it names: its fitness is that
   * generation's best score, and its bits are those of the first genome of
   * that generation's population that reached it.
   */
  predicate SavedFrom(s: Saved, populations: seq<seq<Genome>>, history: seq<seq<real>>)
    requires |history| <= |populations|
  {
    && 1 <= s.generation <= |history|
    && |history[s.generation - 1]| == |populations[s.generation - 1]|
    && GenerationBest(history[s.generation - 1]) == Score(s.fitness)
    && s.fitness in history[s.generation - 1]
    && s.genome == populations[s.generation - 1][FirstIndexOf(history[s.generation - 1], s.fitness)]
  }

  /**
   * The overall best and the saved genomes after the given generations, each
   * generation's scores belonging to the population at the same position.
   */
  function Records(populations: seq<seq<Genome>>, history: seq<seq<real>>): (Fitness, seq<Saved>)
    requires |history| <= |populations|
    requires forall g :: 0 <= g < |history| ==> |history[g]| == |populations[g]|
    decreases |history|
  {
    if history == [] then (MinusInfinity, [])
    else
      var n := |history| - 1;
      var before := Records(populations, history[..n]);
      RecordGeneration(n + 1, populations[n], history[n], GenerationBest(history[n]), before.0, before.1)
  }

  /**
   * What the bookkeeping amounts to: the overall best is the best score of
   * every generation, the saves rise strictly in fitness and in generation,
   * the last holds the overall best, and each comes from the generation it names.
   */
  lemma {:induction false} RecordsSummary(populations: seq<seq<Genome>>, history: seq<seq<real>>)
    requires |history| <= |populations|
    requires forall g :: 0 <= g < |history| ==> |history[g]| == |populations[g]|
    ensures Records(populations, history).0 == OverallBest(history)
    ensures SavesRising(Records(populations, history).1, Records(populations, history).0)
    ensures var saves := Records(populations, history).1;
            forall i, j :: 0 <= i < j < |saves| ==> saves[i].generation < saves[j].generation
    ensures var saves := Records(populations, history).1;
            forall i :: 0 <= i < |saves| ==> SavedFrom(saves[i], populations, history)
    decreases |history|
  {
    if history != [] {
      var n := |history| - 1;
      var front := history[..n];
      RecordsSummary(populations, front);
      var before := Records(populations, front);
      var scores := history[n];
      var saves := Records(populations, history).1;
      forall i | 0 <= i < |before.1|
        ensures SavedFrom(before.1[i], populations, history)
      {
        assert front[before.1[i].generation - 1] == history[before.1[i].generation - 1];
      }
      if Improves(GenerationBest(scores), before.0) {
        var k := SavedIndex(scores, before.0).value;
        GenerationBestIsMaximum(scores);
        assert saves == before.1 + [Saved(n + 1, populations[n][k], scores[k])];
        var f := FirstIndexOf(scores, scores[k]);
        assert f == k;
        assert SavedFrom(saves[|saves| - 1], populations, history);
      }
    }
  }

  /** Populations after the last scored generation play no part in the bookkeeping. */
  lemma {:induction false} RecordsIgnoreLater(populations: seq<seq<Genome>>, history: seq<seq<real>>, later: seq<Genome>)
    requires |history| <= |populations|
    requires forall g :: 0 <= g < |history| ==> |history[g]| == |populations[g]|
    ensures Records(populations + [later], history) == Records(populations, history)
    decreases |history|
  {
    if history != [] {
      RecordsIgnoreLater(populations, history[..|history| - 1], later);
      assert (populations + [later])[|history| - 1] == populations[|history| - 1];
    }
  }

  /**
   * The populations of a run: each generation's population has the configured
   * size and genome length, it was scored with one score per genome, and the
   * next population is what evolve breeds from it with that generation's draws.
   */
  ghost predicate Lineage(populations: seq<seq<Genome>>, history: seq<seq<real>>, size: nat, genomeLength: nat,
                          rate: real, eliteSize: nat, tournamentSize: nat, rngs: seq<Rng>)
  {
    && |populations| == |history| + 1
    && |history| <= |rngs|
    && (forall g :: 0 <= g < |history| ==>
          && |populations[g]| == size && |history[g]| == size && AllLength(populations[g], genomeLength)
          && RngOk(rngs[g], size, tournamentSize, genomeLength)
          && NextPopulation(populations[g], history[g], genomeLength, rate, eliteSize, tournamentSize, rngs[g])
             == Ok(populations[g + 1]))
  }

  /** A run's lineage grows by one generation when the next population is bred from the last one. */
  lemma LineageExtends(populations: seq<seq<Genome>>, history: seq<seq<real>>, scores: seq<real>, next: seq<Genome>,
                       size: nat, genomeLength: nat, rate: real, eliteSize: nat, tournamentSize: nat, rngs: seq<Rng>)
    requires Lineage(populations, history, size, genomeLength, rate, eliteSize, tournamentSize, rngs)
    requires |history| < |rngs| && RngOk(rngs[|history|], size, tournamentSize, genomeLength)
    requires |populations[|history|]| == size && |scores| == size && AllLength(populations[|history|], genomeLength)
    requires NextPopulation(populations[|history|], scores, genomeLength, rate, eliteSize, tournamentSize, rngs[|history|])
             == Ok(next)
    ensures Lineage(populations + [next], history + [scores], size, genomeLength, rate, eliteSize, tournamentSize, rngs)
  {
    var ps, hs := populations + [next], history + [scores];
    forall g | 0 <= g < |hs|
      ensures && |ps[g]| == size && |hs[g]| == size && AllLength(ps[g], genomeLength)
              && RngOk(rngs[g], size, tournamentSize, genomeLength)
              && NextPopulation(ps[g], hs[g], genomeLength, rate, eliteSize, tournamentSize, rngs[g]) == Ok(ps[g + 1])
    {
      assert ps[g] == populations[g] && ps[g + 1] == (populations + [next])[g + 1];
    }
  }

  /**
   * The settings under which every generation trains: a non-empty population
   * (the average fitness divides by its size) of genomes the controller
   * accepts, which evolve can breed from (the elite fills it, or a tournament
   * fits in it).
   */
  predicate Trains(size: nat, genomeLength: nat, eliteSize: nat, tournamentSize: nat) {
    size > 0 && genomeLength == GENOME_LENGTH && (eliteSize >= size || 0 < tournamentSize <= size)
  }

  /**
   * A run grows by one generation: the next population is bred from the last
   * one, and the bookkeeping of the longer run is that of the shorter one
   * followed by the new generation's record.
   */
  lemma RunExtends(populations: seq<seq<Genome>>, history: seq<seq<real>>, scores: seq<real>, next: seq<Genome>,
                   size: nat, genomeLength: nat, rate: real, eliteSize: nat, tournamentSize: nat, rngs: seq<Rng>,
                   recorded: (Fitness, seq<Saved>))
    requires Lineage(populations, history, size, genomeLength, rate, eliteSize, tournamentSize, rngs)
    requires |history| < |rngs| && RngOk(rngs[|history|], size, tournamentSize, genomeLength)
    requires |populations[|history|]| == size && |scores| == size && AllLength(populations[|history|], genomeLength)
    requires NextPopulation(populations[|history|], scores, genomeLength, rate, eliteSize, tournamentSize, rngs[|history|])
             == Ok(next)
    requires recorded == RecordGeneration(|history| + 1, populations[|history|], scores, GenerationBest(scores),
                                          Records(populations, history).0, Records(populations, history).1)
    ensures Lineage(populations + [next], history + [scores], size, genomeLength, rate, eliteSize, tournamentSize, rngs)
    ensures (populations + [next])[0] == populations[0] && (populations + [next])[|history| + 1] == next
    ensures recorded == Records(populations + [next], history + [scores])
  {
    LineageExtends(populations, history, scores, next, size, genomeLength, rate, eliteSize, tournamentSize, rngs);
    assert (history + [scores])[..|history|] == history;
    RecordsIgnoreLater(populations, history + [scores], next);
  }

  /** A population whose genomes share one length is accepted by the controller exactly when it is empty or that length is 180. */
  lemma PopulationAccepted(population: seq<Genome>, genomeLength: nat)
    requires AllLength(population, genomeLength)
    ensures (forall k :: 0 <= k < |population| ==> |population[k]| == GENOME_LENGTH)
            <==> |population| == 0 || genomeLength == GENOME_LENGTH
  {
    if |population| > 0 {
      assert |population[0]| == genomeLength;
    }
  }

  /** The sensor readings as the controller receives them. */
  function AsReals(xs: seq<int>): (r: seq<real>)
    ensures |r| == |xs| && forall i :: 0 <= i < |xs| ==> r[i] == xs[i] as real
  {
    seq(|xs|, i requires 0 <= i < |xs| => xs[i] as real)
  }

  class Trainer {
    const env: Environment
    const ga: GeneticAlgorithm

    ghost predicate Valid()
      reads this, env, ga
    {
      env.Valid() && ga.Valid()
    }

    /** A fresh simulation and a population of 50 random genomes of 180 bits; coin(i, j) is bit j of genome i. */
    constructor(geo: Geometry, coin: (nat, nat) -> bool)
      requires GeometryOk(geo)
      ensures Valid() && fresh(env) && fresh(ga)
      ensures env.car == INITIAL_STATE && env.customRectangles == [] && !env.episodeFinished
      ensures ga.populationSize == POPULATION_SIZE && ga.genomeLength == GENOME_LENGTH
      ensures ga.mutationRate == MUTATION_RATE && ga.eliteSize == ELITE_SIZE && ga.tournamentSize == DEFAULT_TOURNAMENT_SIZE
      ensures ga.population == InitialPopulation(POPULATION_SIZE, GENOME_LENGTH, coin) && ga.generation == 0
      ensures Trains(ga.populationSize, ga.genomeLength, ga.eliteSize, ga.tournamentSize)
    {
      env := new Environment(geo);
      ga := new GeneticAlgorithm(coin, populationSize := POPULATION_SIZE, genomeLength := GENOME_LENGTH,
        mutationRate := MUTATION_RATE, eliteSize := ELITE_SIZE);
    }

    /**
     * Drive one episode from a freshly reset environment with the given
     * controller. No step is issued once the state reports a collision or the
     * episode is over, and the episode always ends within the step budget,
     * so the total is the fitness the environment accumulated over the whole
     * episode.
     */
    method RunEpisode(brain: Brain, squash: real -> real, start: Observation) returns (total: real)
      requires Valid() && WellFormed(brain)
      requires start == env.GetState() && env.currentStep == 0 && env.currentFitness == 0.0
      modifies env
      ensures Valid()
      ensures env.episodeFinished && env.currentStep <= MAX_STEPS
      ensures total == env.currentFitness
      ensures env.customRectangles == old(env.customRectangles)
    {
      total := 0.0;
      var state := start;
      var step := 0;
      while step < MAX_STEPS
        invariant Valid() && state == env.GetState()
        invariant step == env.currentStep && total == env.currentFitness
        invariant env.customRectangles == old(env.customRectangles)
      {
        if state.collision || env.episodeFinished {
          break;
        }
        var action := MakeDecision(brain, AsReals(state.sensors), squash);
        var next, reward, done := env.Step(action.value);
        total := total + reward;
        state := next;
        step := step + 1;
      }
    }

    /**
     * The fitness of one genome. A genome that is not 180 long is refused
     * before the environment is touched; otherwise the environment is reset,
     * one episode is driven by the genome's controller, and the environment
     * is reset again.
     */
    method EvaluateGenome(genome: Genome, squash: real -> real) returns (r: Result<real>)
      requires Valid()
      modifies env
      ensures Valid()
      ensures r.Ok? <==> |genome| == GENOME_LENGTH
      ensures r.Err? ==> r.error == InvalidGenomeLength && unchanged(env)
      ensures r.Ok? ==> env.car == INITIAL_STATE && !env.episodeFinished
                        && env.currentStep == 0 && env.currentFitness == 0.0
      ensures env.customRectangles == old(env.customRectangles)
    {
      var brain := NewBrain(genome);
      if brain.Err? {
        return Err(brain.error);
      }
      var state := env.Reset();
      var total := RunEpisode(brain.value, squash, state);
      state := env.Reset();
      return Ok(total);
    }

    /**
     * Score every genome in order, keeping the running best as each score
     * arrives; the first genome of the wrong length stops the generation.
     */
    method EvaluatePopulation(population: seq<Genome>, squash: real -> real) returns (r: Result<seq<real>>, best: Fitness)
      requires Valid()
      modifies env
      ensures Valid()
      ensures r.Ok? <==> forall k :: 0 <= k < |population| ==> |population[k]| == GENOME_LENGTH
      ensures r.Err? ==> r.error == InvalidGenomeLength
      ensures r.Ok? ==> |r.value| == |population| && best == GenerationBest(r.value)
      ensures env.customRectangles == old(env.customRectangles)
    {
      var scores: seq<real> := [];
      best := MinusInfinity;
      for i := 0 to |population|
        invariant Valid() && env.customRectangles == old(env.customRectangles)
        invariant |scores| == i && best == GenerationBest(scores)
        invariant forall k :: 0 <= k < i ==> |population[k]| == GENOME_LENGTH
      {
        var fitness := EvaluateGenome(population[i], squash);
        if fitness.Err? {
          return Err(fitness.error), best;
        }
        assert (scores + [fitness.value])[..i] == scores;
        scores := scores + [fitness.value];
        best := Keep(best, fitness.value);
      }
      return Ok(scores), best;
    }

    /**
     * The training loop: each generation is scored, its best genome is saved
     * when it beats every earlier generation, the average is taken, and the
     * population is bred from the scores with that generation's random draws.
     * The overall best returned is the best score of all generations, and the
     * saved genomes have strictly rising fitness, the last one holding the
     * overall best.
     */
    /**
     * One pass of the training loop: score the current population, record the
     * generation, then breed the next population with the given draws. It
     * fails with the controller's length error, with the division by zero of
     * the average fitness, or with evolve's own error, and then leaves the
     * population and the generation counter as they were.
     */
    method Generation(generation: nat, squash: real -> real, rng: Rng, overall: Fitness, saves: seq<Saved>)
      returns (r: Result<(Fitness, seq<Saved>)>, scores: seq<real>)
      requires Valid() && RngOk(rng, ga.populationSize, ga.tournamentSize, ga.genomeLength)
      modifies env, ga
      ensures Valid()
      ensures r.Ok? <==> Trains(ga.populationSize, ga.genomeLength, ga.eliteSize, ga.tournamentSize)
      ensures r.Err? ==> ga.population == old(ga.population) && ga.generation == old(ga.generation)
      ensures ga.populationSize > 0 && ga.genomeLength != GENOME_LENGTH ==> r == Err(InvalidGenomeLength)
      ensures ga.populationSize == 0 ==> r == Err(ZeroDivision)
      ensures r.Err? && ga.populationSize > 0 && ga.genomeLength == GENOME_LENGTH ==>
                && |scores| == ga.populationSize
                && r == Err(NextPopulation(ga.population, scores, ga.genomeLength, ga.mutationRate,
                                           ga.eliteSize, ga.tournamentSize, rng).error)
      ensures r.Ok? ==> && |scores| == |old(ga.population)| == ga.populationSize
                        && NextPopulation(old(ga.population), scores, ga.genomeLength, ga.mutationRate,
                                          ga.eliteSize, ga.tournamentSize, rng) == Ok(ga.population)
                        && ga.generation == old(ga.generation) + 1
                        && r.value == RecordGeneration(generation, old(ga.population), scores,
                                                       GenerationBest(scores), overall, saves)
    {
      var population := ga.population;
      var scored, current := EvaluatePopulation(population, squash);
      PopulationAccepted(population, ga.genomeLength);
      scores := [];
      if scored.Err? {
        return Err(scored.error), scores;
      }
      scores := scored.value;
      var recorded := RecordGeneration(generation, population, scores, current, overall, saves);
      if |scores| == 0 {
        return Err(ZeroDivision), scores;
      }
      var evolved := ga.Evolve(scores, rng);
      if evolved.Err? {
        return Err(evolved.error), scores;
      }
      return Ok(recorded), scores;
    }

    method Train(generations: nat, squash: real -> real, rngs: seq<Rng>)
      returns (r: Result<(Fitness, seq<Saved>)>, ghost history: seq<seq<real>>, ghost populations: seq<seq<Genome>>)
      requires Valid() && |rngs| == generations
      requires forall g :: 0 <= g < generations ==> RngOk(rngs[g], ga.populationSize, ga.tournamentSize, ga.genomeLength)
      modifies env, ga
      ensures Valid()
      ensures r.Ok? ==> && |history| == generations
                        && Lineage(populations, history, ga.populationSize, ga.genomeLength, ga.mutationRate,
                                   ga.eliteSize, ga.tournamentSize, rngs)
                        && populations[0] == old(ga.population) && populations[generations] == ga.population
                        && ga.generation == old(ga.generation) + generations
                        && r.value == Records(populations, history)
      ensures r.Ok? ==> r.value.0 == GenerationBest(Flatten(history)) && SavesRising(r.value.1, r.value.0)
      ensures r.Ok? ==> forall i :: 0 <= i < |r.value.1| ==> SavedFrom(r.value.1[i], populations, history)
      ensures r.Ok? <==> generations == 0 || Trains(ga.populationSize, ga.genomeLength, ga.eliteSize, ga.tournamentSize)
      ensures r.Err? ==> generations > 0 && ga.population == old(ga.population) && ga.generation == old(ga.generation)
      ensures generations > 0 && ga.populationSize > 0 && ga.genomeLength != GENOME_LENGTH ==> r == Err(InvalidGenomeLength)
      ensures generations > 0 && ga.populationSize == 0 ==> r == Err(ZeroDivision)
      ensures r.Err? && ga.populationSize > 0 && ga.genomeLength == GENOME_LENGTH ==>
                && |history| == 1 && |history[0]| == ga.populationSize
                && r == Err(NextPopulation(ga.population, history[0], ga.genomeLength, ga.mutationRate,
                                           ga.eliteSize, ga.tournamentSize, rngs[0]).error)
    {
      var overall := MinusInfinity;
      var saves: seq<Saved> := [];
      history := [];
      populations := [ga.population];
      for g := 0 to generations
        invariant Valid()
        invariant |history| == g
        invariant Lineage(populations, history, ga.populationSize, ga.genomeLength, ga.mutationRate,
                          ga.eliteSize, ga.tournamentSize, rngs)
        invariant populations[0] == old(ga.population) && populations[g] == ga.population
        invariant ga.generation == old(ga.generation) + g
        invariant (overall, saves) == Records(populations, history)
        invariant g > 0 ==> Trains(ga.populationSize, ga.genomeLength, ga.eliteSize, ga.tournamentSize)
      {
        var recorded, scores := Generation(g + 1, squash, rngs[g], overall, saves);
        if recorded.Err? {
          assert g == 0 && history == [];
          return Err(recorded.error), [scores], populations;
        }
        RunExtends(populations, history, scores, ga.population, ga.populationSize, ga.genomeLength,
                   ga.mutationRate, ga.eliteSize, ga.tournamentSize, rngs, recorded.value);
        history, populations := history + [scores], populations + [ga.population];
        overall, saves := recorded.value.0, recorded.value.1;
      }
      RecordsSummary(populations, history);
      OverallBestIsBestOfAll(history);
      return Ok((overall, saves)), history, populations;
    }
  }
}
