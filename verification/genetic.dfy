/**
 * The genetic algorithm that breeds controller genomes: random initial
 * population, tournament selection on min-max normalised fitness, two-point
 * crossover, bit-flip mutation with a chance of also flipping each neighbour,
 * and elitism that copies the best genomes unchanged into the next generation.
 *
 * Randomness is an explicit input. Every draw the algorithm makes comes from an
 * `Rng` value: the k-th tournament sample, the k-th pair of crossover points,
 * and a stream of uniform numbers read through a cursor.
 */
module GeneticAlgorithm {
  import opened Common

  type Genome = seq<int>

  const DEFAULT_POPULATION_SIZE := 100
  const DEFAULT_GENOME_LENGTH := 180
  const DEFAULT_MUTATION_RATE := 0.01
  const DEFAULT_ELITE_SIZE := 10
  const DEFAULT_TOURNAMENT_SIZE := 5
  /** The chance that each neighbour of a mutated bit is flipped too. */
  const NEIGHBOUR_RATE := 0.3

  predicate AllLength(gs: seq<Genome>, len: nat) {
    forall i :: 0 <= i < |gs| ==> |gs[i]| == len
  }

  predicate AllBits(gs: seq<Genome>) {
    forall i :: 0 <= i < |gs| ==> IsBits(gs[i])
  }

  // ---------------------------------------------------------------------------
  // Explicit randomness
  // ---------------------------------------------------------------------------

  /** random.sample(range(n), k): k distinct indices below n, in draw order. */
  predicate IsSample(s: seq<nat>, n: nat, k: nat) {
    && |s| == k
    && (forall i :: 0 <= i < |s| ==> s[i] < n)
    && (forall i, j :: 0 <= i < j < |s| ==> s[i] != s[j])
  }

  /** random.sample(range(len), 2): two distinct positions below len. */
  predicate IsPointPair(p: (nat, nat), len: nat) {
    p.0 < len && p.1 < len && p.0 != p.1
  }

  /**
   * sample(c) is the c-th tournament sample, points(c) the c-th pair of
   * crossover points, uniform(c) the c-th value of random.random().
   */
  datatype Rng = Rng(sample: nat -> seq<nat>, points: nat -> (nat, nat), uniform: nat -> real)

  /** The draws are well-formed whenever the library call that makes them would not raise. */
  ghost predicate RngOk(rng: Rng, n: nat, k: nat, len: nat) {
    && (forall c :: k <= n ==> IsSample(rng.sample(c), n, k))
    && (forall c :: len >= 2 ==> IsPointPair(rng.points(c), len))
  }

  // ---------------------------------------------------------------------------
  // _initialize_population
  // ---------------------------------------------------------------------------

  /** populationSize genomes of genomeLength random bits; coin(i, j) is bit j of genome i. */
  function InitialPopulation(populationSize: nat, genomeLength: nat, coin: (nat, nat) -> bool): (p: seq<Genome>)
    ensures |p| == populationSize
    ensures AllLength(p, genomeLength) && AllBits(p)
  {
    seq(populationSize, i requires 0 <= i < populationSize =>
      seq(genomeLength, j requires 0 <= j < genomeLength => if coin(i, j) then 1 else 0))
  }

  // ---------------------------------------------------------------------------
  // _select_parent
  // ---------------------------------------------------------------------------

  /**
   * max(tournament, key=score): the position in `sample` of the first entry
   * with the highest score, scanning in draw order.
   */
  function TournamentWinner(scores: seq<real>, sample: seq<nat>): (w: nat)
    requires |sample| > 0
    requires forall i :: 0 <= i < |sample| ==> sample[i] < |scores|
    ensures w < |sample|
    ensures forall i :: 0 <= i < |sample| ==> scores[sample[i]] <= scores[sample[w]]
    ensures forall i :: 0 <= i < w ==> scores[sample[i]] < scores[sample[w]]
  {
    if |sample| == 1 then 0
    else
      var w := TournamentWinner(scores, sample[..|sample| - 1]);
      if scores[sample[|sample| - 1]] > scores[sample[w]] then |sample| - 1 else w
  }

  /** The first highest-scoring position of a sample is unique: any two positions with that property coincide. */
  lemma FirstMaximumUnique(scores: seq<real>, sample: seq<nat>, v: nat, w: nat)
    requires forall i :: 0 <= i < |sample| ==> sample[i] < |scores|
    requires v < |sample| && w < |sample|
    requires forall i :: 0 <= i < |sample| ==> scores[sample[i]] <= scores[sample[v]]
    requires forall i :: 0 <= i < v ==> scores[sample[i]] < scores[sample[v]]
    requires forall i :: 0 <= i < |sample| ==> scores[sample[i]] <= scores[sample[w]]
    requires forall i :: 0 <= i < w ==> scores[sample[i]] < scores[sample[w]]
    ensures v == w
  {
    assert scores[sample[v]] == scores[sample[w]];
  }

  /**
   * The tournament outcome depends only on the order of the scores: two
   * score vectors that order every pair of sampled entries alike elect the
   * same winner.
   */
  lemma WinnerDependsOnlyOnOrder(scores: seq<real>, other: seq<real>, sample: seq<nat>)
    requires |sample| > 0 && |scores| == |other|
    requires forall i :: 0 <= i < |sample| ==> sample[i] < |scores|
    requires forall a, b :: 0 <= a < |scores| && 0 <= b < |scores| ==>
               (scores[a] <= scores[b] <==> other[a] <= other[b])
    ensures TournamentWinner(scores, sample) == TournamentWinner(other, sample)
  {
    var v := TournamentWinner(scores, sample);
    var w := TournamentWinner(other, sample);
    forall i | 0 <= i < |sample|
      ensures scores[sample[i]] <= scores[sample[w]]
    {
      assert other[sample[i]] <= other[sample[w]];
    }
    forall i | 0 <= i < w
      ensures scores[sample[i]] < scores[sample[w]]
    {
      assert other[sample[i]] < other[sample[w]];
      assert !(other[sample[w]] <= other[sample[i]]);
    }
    FirstMaximumUnique(scores, sample, v, w);
  }

  /**
   * One tournament: random.sample raises when asked for more entries than
   * there are scores, and max() raises on an empty tournament. Otherwise the
   * parent is the genome of a sampled index whose score is highest in the sample.
   */
  function SelectParent(population: seq<Genome>, scores: seq<real>, tournamentSize: nat, sample: seq<nat>)
    : (r: Result<Genome>)
    requires |scores| == |population|
    requires tournamentSize <= |scores| ==> IsSample(sample, |scores|, tournamentSize)
    ensures r.Ok? <==> 0 < tournamentSize <= |scores|
    ensures tournamentSize > |scores| ==> r == Err(SampleLargerThanPopulation)
    ensures tournamentSize == 0 ==> r == Err(EmptySequence)
    ensures r.Ok? ==> exists w :: 0 <= w < |sample| && r.value == population[sample[w]]
                        && forall i :: 0 <= i < |sample| ==> scores[sample[i]] <= scores[sample[w]]
  {
    if tournamentSize > |scores| then Err(SampleLargerThanPopulation)
    else if tournamentSize == 0 then Err(EmptySequence)
    else Ok(population[sample[TournamentWinner(scores, sample)]])
  }

  // ---------------------------------------------------------------------------
  // _crossover
  // ---------------------------------------------------------------------------

  /**
   * Two-point crossover: the points are the sorted pair (a, b); child 1 takes
   * parent 2's genes on [a, b) and parent 1's elsewhere, child 2 the reverse.
   * Parents of different lengths raise, and so does random.sample when a
   * parent has fewer than two genes.
   */
  function Crossover(parent1: Genome, parent2: Genome, points: (nat, nat)): (r: Result<(Genome, Genome)>)
    requires |parent1| == |parent2| >= 2 ==> IsPointPair(points, |parent1|)
    ensures r.Ok? <==> |parent1| == |parent2| >= 2
    ensures |parent1| != |parent2| ==> r == Err(MismatchedParentLength)
    ensures |parent1| == |parent2| < 2 ==> r == Err(SampleLargerThanPopulation)
    ensures r.Ok? ==> |r.value.0| == |parent1| && |r.value.1| == |parent1|
    ensures r.Ok? ==> forall i :: 0 <= i < |parent1| ==>
              if Min(points.0 as real, points.1 as real) <= i as real < Max(points.0 as real, points.1 as real)
              then r.value.0[i] == parent2[i] && r.value.1[i] == parent1[i]
              else r.value.0[i] == parent1[i] && r.value.1[i] == parent2[i]
  {
    if |parent1| != |parent2| then Err(MismatchedParentLength)
    else if |parent1| < 2 then Err(SampleLargerThanPopulation)
    else
      var a := if points.0 <= points.1 then points.0 else points.1;
      var b := if points.0 <= points.1 then points.1 else points.0;
      Ok((parent1[..a] + parent2[a..b] + parent1[b..], parent2[..a] + parent1[a..b] + parent2[b..]))
  }

  /** Crossover only moves genes between the parents: at each position the children hold the parents' two genes. */
  lemma CrossoverConservesGenes(parent1: Genome, parent2: Genome, points: (nat, nat), i: nat)
    requires |parent1| == |parent2| >= 2 && IsPointPair(points, |parent1|)
    requires i < |parent1|
    ensures var r := Crossover(parent1, parent2, points).value;
            multiset{r.0[i], r.1[i]} == multiset{parent1[i], parent2[i]}
  {
  }

  /** Crossing a genome with itself yields two copies of it. */
  lemma CrossoverOfEqualParents(parent: Genome, points: (nat, nat))
    requires |parent| >= 2 && IsPointPair(points, |parent|)
    ensures Crossover(parent, parent, points) == Ok((parent, parent))
  {
    var r := Crossover(parent, parent, points).value;
    assert r.0 == parent;
    assert r.1 == parent;
  }

  /** Children of bit-string parents are bit strings. */
  lemma CrossoverKeepsBits(parent1: Genome, parent2: Genome, points: (nat, nat))
    requires |parent1| == |parent2| >= 2 && IsPointPair(points, |parent1|)
    requires IsBits(parent1) && IsBits(parent2)
    ensures IsBits(Crossover(parent1, parent2, points).value.0)
    ensures IsBits(Crossover(parent1, parent2, points).value.1)
  {
    var r := Crossover(parent1, parent2, points).value;
    forall i | 0 <= i < |r.0|
      ensures r.0[i] == 0 || r.0[i] == 1
      ensures r.1[i] == 0 || r.1[i] == 1
    {
      CrossoverConservesGenes(parent1, parent2, points, i);
    }
  }

  // ---------------------------------------------------------------------------
  // _mutate
  // ---------------------------------------------------------------------------

  function Flip(m: seq<int>, i: nat): (r: seq<int>)
    requires i < |m|
    ensures |r| == |m| && r[i] == 1 - m[i]
    ensures forall j :: 0 <= j < |m| && j != i ==> r[j] == m[j]
  {
    m[i := 1 - m[i]]
  }

  /**
   * Position i of the mutation loop, reading uniform draws from cursor c:
   * one draw decides whether bit i flips; only when it does, a draw for the
   * left neighbour (if any) and a draw for the right neighbour (if any)
   * decide whether each of them flips too. Returns the new list and cursor.
   */
  function MutateAt(m: seq<int>, i: nat, rate: real, u: nat -> real, c: nat): (seq<int>, nat)
    requires i < |m|
  {
    if u(c) < rate then
      var m1, c1 := Flip(m, i), c + 1;
      var (m2, c2) := if i > 0 then ((if u(c1) < NEIGHBOUR_RATE then Flip(m1, i - 1) else m1), c1 + 1) else (m1, c1);
      var (m3, c3) := if i < |m| - 1 then ((if u(c2) < NEIGHBOUR_RATE then Flip(m2, i + 1) else m2), c2 + 1) else (m2, c2);
      (m3, c3)
    else (m, c + 1)
  }

  /** The mutation loop from position i to the end. */
  function MutateFrom(m: seq<int>, i: nat, rate: real, u: nat -> real, c: nat): (seq<int>, nat)
    decreases |m| - i
  {
    if i >= |m| then (m, c)
    else
      var (m', c') := MutateAt(m, i, rate, u, c);
      MutateFrom(m', i + 1, rate, u, c')
  }

  /**
   * genome.copy() mutated position by position; returns the mutated genome
   * and the cursor after the last uniform draw it read.
   */
  method Mutate(genome: Genome, rate: real, u: nat -> real, cursor: nat) returns (mutated: Genome, next: nat)
    ensures (mutated, next) == MutateFrom(genome, 0, rate, u, cursor)
  {
    mutated, next := genome, cursor;
    var i := 0;
    while i < |mutated|
      invariant i <= |mutated| == |genome|
      invariant MutateFrom(mutated, i, rate, u, next) == MutateFrom(genome, 0, rate, u, cursor)
    {
      ghost var before, start := mutated, next;
      var draw := u(next);
      next := next + 1;
      if draw < rate {
        mutated := mutated[i := 1 - mutated[i]];
        if i > 0 {
          draw := u(next);
          next := next + 1;
          if draw < NEIGHBOUR_RATE {
            mutated := mutated[i - 1 := 1 - mutated[i - 1]];
          }
        }
        if i < |mutated| - 1 {
          draw := u(next);
          next := next + 1;
          if draw < NEIGHBOUR_RATE {
            mutated := mutated[i + 1 := 1 - mutated[i + 1]];
          }
        }
      }
      assert (mutated, next) == MutateAt(before, i, rate, u, start);
      i := i + 1;
    }
  }

  /** One position of mutation keeps the length, keeps bit strings bit strings, and reads one to three draws. */
  lemma MutateAtShape(m: seq<int>, i: nat, rate: real, u: nat -> real, c: nat)
    requires i < |m|
    ensures |MutateAt(m, i, rate, u, c).0| == |m|
    ensures IsBits(m) ==> IsBits(MutateAt(m, i, rate, u, c).0)
    ensures c + 1 <= MutateAt(m, i, rate, u, c).1 <= c + 3
  {
  }

  /**
   * Mutation keeps the genome's length and its bits, and reads between one
   * and three uniform draws per position.
   */
  lemma {:induction false} MutateFromShape(m: seq<int>, i: nat, rate: real, u: nat -> real, c: nat)
    requires i <= |m|
    ensures |MutateFrom(m, i, rate, u, c).0| == |m|
    ensures IsBits(m) ==> IsBits(MutateFrom(m, i, rate, u, c).0)
    ensures c + (|m| - i) <= MutateFrom(m, i, rate, u, c).1 <= c + 3 * (|m| - i)
    decreases |m| - i
  {
    if i < |m| {
      var (m', c') := MutateAt(m, i, rate, u, c);
      MutateAtShape(m, i, rate, u, c);
      MutateFromShape(m', i + 1, rate, u, c');
    }
  }

  /**
   * When no draw at or after the cursor falls below the mutation rate, the
   * genome comes back unchanged after exactly one draw per position.
   */
  lemma {:induction false} MutateWithoutHits(m: seq<int>, i: nat, rate: real, u: nat -> real, c: nat)
    requires i <= |m|
    requires forall d :: d >= c ==> u(d) >= rate
    ensures MutateFrom(m, i, rate, u, c) == (m, c + (|m| - i))
    decreases |m| - i
  {
    if i < |m| {
      MutateWithoutHits(m, i + 1, rate, u, c + 1);
    }
  }

  /** One position of the loop changes at most that bit and its two neighbours. */
  lemma MutateAtIsLocal(m: seq<int>, i: nat, rate: real, u: nat -> real, c: nat, j: nat)
    requires i < |m| && j < |m|
    requires j + 1 < i || i + 1 < j
    ensures MutateAt(m, i, rate, u, c).0[j] == m[j]
  {
  }

  // ---------------------------------------------------------------------------
  // Fitness normalisation
  // ---------------------------------------------------------------------------

  function MinOf(s: seq<real>): (r: real)
    requires |s| > 0
    ensures forall i :: 0 <= i < |s| ==> r <= s[i]
    ensures exists i :: 0 <= i < |s| && r == s[i]
  {
    if |s| == 1 then s[0]
    else
      var rest := MinOf(s[1..]);
      assert forall i :: 1 <= i < |s| ==> s[i] == s[1..][i - 1];
      if s[0] <= rest then s[0] else rest
  }

  function MaxOf(s: seq<real>): (r: real)
    requires |s| > 0
    ensures forall i :: 0 <= i < |s| ==> s[i] <= r
    ensures exists i :: 0 <= i < |s| && r == s[i]
  {
    if |s| == 1 then s[0]
    else
      var rest := MaxOf(s[1..]);
      assert forall i :: 1 <= i < |s| ==> s[i] == s[1..][i - 1];
      if s[0] >= rest then s[0] else rest
  }

  /** (f - lo) / (hi - lo): a score between the extremes placed on [0, 1]. */
  function Scale(f: real, lo: real, hi: real): (r: real)
    requires lo <= f <= hi && lo < hi
    ensures 0.0 <= r <= 1.0
    ensures r == 0.0 <==> f == lo
    ensures r == 1.0 <==> f == hi
  {
    var d := hi - lo;
    var x := f - lo;
    assert (x / d) * d == x;
    x / d
  }

  /** Scaling onto [0, 1] keeps the order of any two scores, ties included. */
  lemma ScaleMonotone(f: real, g: real, lo: real, hi: real)
    requires lo <= f <= hi && lo <= g <= hi && lo < hi
    ensures f <= g <==> Scale(f, lo, hi) <= Scale(g, lo, hi)
  {
    var d := hi - lo;
    var x, y := f - lo, g - lo;
    assert (x / d) * d == x && (y / d) * d == y;
    if x <= y {
      assert (y / d - x / d) * d == y - x;
    } else {
      assert (x / d - y / d) * d == x - y;
    }
  }

  /**
   * Min-max normalisation of the fitness scores: min() and max() raise on an
   * empty list; when every score is equal each becomes 1/N; otherwise each
   * score is scaled onto [0, 1], the lowest to 0 and the highest to 1.
   */
  function Normalize(scores: seq<real>): (r: Result<seq<real>>)
    ensures r.Ok? <==> |scores| > 0
    ensures r.Err? ==> r.error == EmptySequence
    ensures r.Ok? ==> |r.value| == |scores|
    ensures r.Ok? ==> forall i :: 0 <= i < |scores| ==> 0.0 <= r.value[i] <= 1.0
  {
    if |scores| == 0 then Err(EmptySequence)
    else
      var lo, hi := MinOf(scores), MaxOf(scores);
      if hi != lo then
        Ok(seq(|scores|, i requires 0 <= i < |scores| => Scale(scores[i], lo, hi)))
      else
        Ok(seq(|scores|, _ => 1.0 / (|scores| as real)))
  }

  /** When the scores differ, exactly the lowest normalise to 0 and exactly the highest to 1. */
  lemma NormalizeExtremes(scores: seq<real>, i: nat)
    requires i < |scores| && MinOf(scores) != MaxOf(scores)
    ensures Normalize(scores).value[i] == 0.0 <==> scores[i] == MinOf(scores)
    ensures Normalize(scores).value[i] == 1.0 <==> scores[i] == MaxOf(scores)
  {
    assert Normalize(scores).value[i] == Scale(scores[i], MinOf(scores), MaxOf(scores));
  }

  /** When every score is equal, each normalises to 1/N. */
  lemma NormalizeUniform(scores: seq<real>, i: nat)
    requires i < |scores| && MinOf(scores) == MaxOf(scores)
    ensures Normalize(scores).value[i] == 1.0 / (|scores| as real)
  {
  }

  /** Normalisation preserves the order of every pair of scores, ties included. */
  lemma NormalizePreservesOrder(scores: seq<real>, a: nat, b: nat)
    requires a < |scores| && b < |scores|
    ensures scores[a] <= scores[b] <==> Normalize(scores).value[a] <= Normalize(scores).value[b]
  {
    var lo, hi := MinOf(scores), MaxOf(scores);
    if hi != lo {
      ScaleMonotone(scores[a], scores[b], lo, hi);
    } else {
      assert scores[a] == scores[b];
    }
  }

  /** Tournaments on the normalised scores elect exactly the winners they would elect on the raw scores. */
  lemma NormalizedTournamentUnchanged(scores: seq<real>, sample: seq<nat>)
    requires |sample| > 0 && |scores| > 0
    requires forall i :: 0 <= i < |sample| ==> sample[i] < |scores|
    ensures TournamentWinner(Normalize(scores).value, sample) == TournamentWinner(scores, sample)
  {
    var norm := Normalize(scores).value;
    forall a, b | 0 <= a < |scores| && 0 <= b < |scores|
      ensures scores[a] <= scores[b] <==> norm[a] <= norm[b]
    {
      NormalizePreservesOrder(scores, a, b);
    }
    WinnerDependsOnlyOnOrder(scores, norm, sample);
  }

  // ---------------------------------------------------------------------------
  // Elitism: sorted(range(N), key=score, reverse=True)[:elite_size]
  // ---------------------------------------------------------------------------

  /**
   * Index a comes before index b in a stable descending sort by score: a
   * higher score first, and equal scores in their original order.
   */
  predicate Before(scores: seq<real>, a: nat, b: nat) {
    a < |scores| && b < |scores| && (scores[a] > scores[b] || (scores[a] == scores[b] && a < b))
  }

  predicate Ordered(scores: seq<real>, s: seq<nat>) {
    forall i, j :: 0 <= i < j < |s| ==> Before(scores, s[i], s[j])
  }

  predicate InRange(s: seq<nat>, n: nat) {
    forall i :: 0 <= i < |s| ==> s[i] < n
  }

  function Range(n: nat): (r: seq<nat>)
    ensures |r| == n && forall i :: 0 <= i < n ==> r[i] == i
  {
    seq(n, i => i)
  }

  /** Insert index x into a list of indices that is sorted by Before. */
  function Insert(scores: seq<real>, sorted: seq<nat>, x: nat): (r: seq<nat>)
    requires x < |scores| && InRange(sorted, |scores|)
    ensures multiset(r) == multiset(sorted) + multiset{x}
    ensures |r| == |sorted| + 1 && InRange(r, |scores|)
  {
    if sorted == [] then [x]
    else if Before(scores, x, sorted[0]) then [x] + sorted
    else
      assert sorted == [sorted[0]] + sorted[1..];
      [sorted[0]] + Insert(scores, sorted[1..], x)
  }

  /** Two different indices are always ordered one way or the other. */
  lemma BeforeTotal(scores: seq<real>, a: nat, b: nat)
    requires a < |scores| && b < |scores| && a != b
    ensures Before(scores, a, b) || Before(scores, b, a)
  {
  }

  /** Inserting a new index into an ordered list keeps it ordered. */
  lemma {:induction false} InsertOrdered(scores: seq<real>, sorted: seq<nat>, x: nat)
    requires x < |scores| && InRange(sorted, |scores|)
    requires Ordered(scores, sorted) && x !in sorted
    ensures Ordered(scores, Insert(scores, sorted, x))
  {
    if sorted == [] {
    } else if Before(scores, x, sorted[0]) {
      var r := [x] + sorted;
      forall i, j | 0 <= i < j < |r|
        ensures Before(scores, r[i], r[j])
      {
        if i == 0 && j > 1 {
          assert Before(scores, sorted[0], sorted[j - 1]);
        }
      }
    } else {
      var rest := Insert(scores, sorted[1..], x);
      InsertOrdered(scores, sorted[1..], x);
      BeforeTotal(scores, x, sorted[0]);
      assert multiset(sorted) == multiset{sorted[0]} + multiset(sorted[1..]) by {
        assert sorted == [sorted[0]] + sorted[1..];
      }
      forall j | 0 <= j < |rest|
        ensures Before(scores, sorted[0], rest[j])
      {
        assert rest[j] in multiset(rest);
        if rest[j] != x {
          assert rest[j] in multiset(sorted[1..]);
          var k :| 0 <= k < |sorted[1..]| && sorted[1..][k] == rest[j];
          assert sorted[k + 1] == rest[j];
        }
      }
      var r := [sorted[0]] + rest;
      forall i, j | 0 <= i < j < |r|
        ensures Before(scores, r[i], r[j])
      {
        if i > 0 {
          assert r[i] == rest[i - 1] && r[j] == rest[j - 1];
        }
      }
    }
  }

  /** A list holding the same indices as Range(n) holds only indices below n. */
  lemma PermutationOfRangeInRange(r: seq<nat>, n: nat)
    requires multiset(r) == multiset(Range(n))
    ensures InRange(r, n)
  {
    forall i | 0 <= i < |r|
      ensures r[i] < n
    {
      assert r[i] in multiset(Range(n));
      var k :| 0 <= k < n && Range(n)[k] == r[i];
    }
  }

  /** The indices 0 .. n-1 in stable descending order of score. */
  function SortByScore(scores: seq<real>, n: nat): (r: seq<nat>)
    requires n <= |scores|
    ensures multiset(r) == multiset(Range(n))
    ensures |r| == n && InRange(r, n) && Ordered(scores, r)
  {
    if n == 0 then []
    else
      var prefix := SortByScore(scores, n - 1);
      assert Range(n) == Range(n - 1) + [n - 1];
      assert n - 1 !in multiset(Range(n - 1));
      InsertOrdered(scores, prefix, n - 1);
      var r := Insert(scores, prefix, n - 1);
      PermutationOfRangeInRange(r, n);
      r
  }

  /** The indices kept as elite: the first min(eliteSize, N) of the stable descending order. */
  function EliteIndices(scores: seq<real>, eliteSize: nat): (r: seq<nat>)
    ensures |r| == if eliteSize <= |scores| then eliteSize else |scores|
    ensures InRange(r, |scores|) && Ordered(scores, r)
  {
    var sorted := SortByScore(scores, |scores|);
    sorted[..if eliteSize <= |scores| then eliteSize else |scores|]
  }

  /**
   * The elite are exactly the best: every index not kept scores no higher than
   * every kept one, and strictly lower than a kept one with an equal score
   * could only be if it came later in the population.
   */
  lemma EliteIsTop(scores: seq<real>, eliteSize: nat, kept: nat, dropped: nat)
    requires kept in EliteIndices(scores, eliteSize)
    requires dropped < |scores| && dropped !in EliteIndices(scores, eliteSize)
    ensures Before(scores, kept, dropped)
  {
    var sorted := SortByScore(scores, |scores|);
    var m := if eliteSize <= |scores| then eliteSize else |scores|;
    var i :| 0 <= i < m && sorted[i] == kept;
    assert Range(|scores|)[dropped] == dropped;
    assert dropped in multiset(Range(|scores|));
    assert dropped in multiset(sorted);
    var j :| 0 <= j < |sorted| && sorted[j] == dropped;
    assert forall k :: 0 <= k < m ==> sorted[k] == sorted[..m][k] != dropped;
  }

  /** Every index of the population is somewhere in the sorted order, exactly once. */
  lemma SortIsPermutation(scores: seq<real>, x: nat)
    requires x < |scores|
    ensures multiset(SortByScore(scores, |scores|))[x] == 1
  {
    var r := Range(|scores|);
    assert r == r[..x] + [x] + r[x + 1..];
    assert x !in r[..x] && x !in r[x + 1..];
    assert multiset(r) == multiset(r[..x]) + multiset{x} + multiset(r[x + 1..]);
  }

  // ---------------------------------------------------------------------------
  // evolve, as a function of the old population and the random draws
  // ---------------------------------------------------------------------------

  /** The genomes at the given indices, in that order. */
  function Pick(population: seq<Genome>, indices: seq<nat>): (r: seq<Genome>)
    requires InRange(indices, |population|)
    ensures |r| == |indices| && forall i :: 0 <= i < |indices| ==> r[i] == population[indices[i]]
  {
    seq(|indices|, i requires 0 <= i < |indices| => population[indices[i]])
  }

  /**
   * The fill loop of evolve from a partial new population `acc`, at round
   * `round` of the draws and uniform cursor `cursor`: two tournaments, one
   * crossover, child 1 mutated and appended, then child 2 mutated and
   * appended only while a slot remains. The first failing library call ends
   * the loop with its error.
   */
  function Fill(population: seq<Genome>, norm: seq<real>, genomeLength: nat, rate: real,
                tournamentSize: nat, size: nat, rng: Rng, acc: seq<Genome>, round: nat, cursor: nat)
    : (r: Result<seq<Genome>>)
    requires |norm| == |population| && AllLength(population, genomeLength)
    requires RngOk(rng, |population|, tournamentSize, genomeLength)
    ensures r.Ok? ==> |r.value| == (if |acc| >= size then |acc| else size) && r.value[..|acc|] == acc
    ensures r.Ok? && AllLength(acc, genomeLength) ==> AllLength(r.value, genomeLength)
    ensures r.Ok? && AllBits(acc) && AllBits(population) ==> AllBits(r.value)
    decreases size - |acc|
  {
    if |acc| >= size then Ok(acc)
    else
      var p1 := SelectParent(population, norm, tournamentSize, rng.sample(2 * round));
      if p1.Err? then Err(p1.error)
      else
        var p2 := SelectParent(population, norm, tournamentSize, rng.sample(2 * round + 1));
        var children := Crossover(p1.value, p2.value, rng.points(round));
        if children.Err? then Err(children.error)
        else
          ChildrenOfPopulation(population, p1.value, p2.value, rng.points(round), genomeLength);
          var (child1, cursor1) := MutateFrom(children.value.0, 0, rate, rng.uniform, cursor);
          MutateFromShape(children.value.0, 0, rate, rng.uniform, cursor);
          AppendChild(population, acc, genomeLength, child1);
          var acc1 := acc + [child1];
          if |acc1| < size then
            var (child2, cursor2) := MutateFrom(children.value.1, 0, rate, rng.uniform, cursor1);
            MutateFromShape(children.value.1, 0, rate, rng.uniform, cursor1);
            AppendChild(population, acc1, genomeLength, child2);
            var rest := Fill(population, norm, genomeLength, rate, tournamentSize, size, rng, acc1 + [child2], round + 1, cursor2);
            ResultKeepsPrefix(acc, acc1 + [child2], rest);
            rest
          else
            Ok(acc1)
  }

  /**
   * The fill loop fails exactly when it has a slot to fill and its first
   * round raises: a tournament of size 0 or larger than the population, or
   * genomes too short for two crossover points.
   */
  lemma {:induction false} FillOutcome(population: seq<Genome>, norm: seq<real>, genomeLength: nat, rate: real,
                                       tournamentSize: nat, size: nat, rng: Rng, acc: seq<Genome>, round: nat, cursor: nat)
    requires |norm| == |population| && AllLength(population, genomeLength)
    requires RngOk(rng, |population|, tournamentSize, genomeLength)
    ensures Fill(population, norm, genomeLength, rate, tournamentSize, size, rng, acc, round, cursor).Ok?
            <==> |acc| >= size || (0 < tournamentSize <= |population| && genomeLength >= 2)
    decreases size - |acc|
  {
    if |acc| < size && 0 < tournamentSize <= |population| {
      var p1 := SelectParent(population, norm, tournamentSize, rng.sample(2 * round));
      var p2 := SelectParent(population, norm, tournamentSize, rng.sample(2 * round + 1));
      assert p1.value in population && p2.value in population;
      if genomeLength >= 2 {
        var children := Crossover(p1.value, p2.value, rng.points(round));
        var (child1, cursor1) := MutateFrom(children.value.0, 0, rate, rng.uniform, cursor);
        var acc1 := acc + [child1];
        if |acc1| < size {
          var (child2, cursor2) := MutateFrom(children.value.1, 0, rate, rng.uniform, cursor1);
          FillOutcome(population, norm, genomeLength, rate, tournamentSize, size, rng, acc1 + [child2], round + 1, cursor2);
        }
      }
    }
  }

  /** Children of two parents drawn from a population of bit strings are bit strings. */
  lemma ChildrenOfPopulation(population: seq<Genome>, p1: Genome, p2: Genome, points: (nat, nat), genomeLength: nat)
    requires AllLength(population, genomeLength)
    requires p1 in population && p2 in population
    requires genomeLength >= 2 && IsPointPair(points, genomeLength)
    ensures AllBits(population) ==> IsBits(Crossover(p1, p2, points).value.0)
    ensures AllBits(population) ==> IsBits(Crossover(p1, p2, points).value.1)
  {
    if AllBits(population) {
      var i :| 0 <= i < |population| && population[i] == p1;
      var j :| 0 <= j < |population| && population[j] == p2;
      CrossoverKeepsBits(p1, p2, points);
    }
  }

  /** A result that extends an extension of acc extends acc. */
  lemma ResultKeepsPrefix(acc: seq<Genome>, longer: seq<Genome>, r: Result<seq<Genome>>)
    requires |acc| <= |longer| && longer[..|acc|] == acc
    requires r.Ok? ==> |longer| <= |r.value| && r.value[..|longer|] == longer
    ensures r.Ok? ==> r.value[..|acc|] == acc
  {
    if r.Ok? {
      assert r.value[..|acc|] == r.value[..|longer|][..|acc|];
    }
  }

  /** Appending a well-formed child keeps a partial population well-formed. */
  lemma AppendChild(population: seq<Genome>, acc: seq<Genome>, genomeLength: nat, child: Genome)
    requires |child| == genomeLength
    requires AllBits(population) ==> IsBits(child)
    ensures AllLength(acc, genomeLength) ==> AllLength(acc + [child], genomeLength)
    ensures AllBits(acc) && AllBits(population) ==> AllBits(acc + [child])
  {
  }

  /**
   * The whole of evolve as a function: normalise (raising on an empty score
   * list), copy the elite, then run the fill loop with the normalised scores.
   */
  function NextPopulation(population: seq<Genome>, scores: seq<real>, genomeLength: nat, rate: real,
                          eliteSize: nat, tournamentSize: nat, rng: Rng): (r: Result<seq<Genome>>)
    requires |scores| == |population| && AllLength(population, genomeLength)
    requires RngOk(rng, |population|, tournamentSize, genomeLength)
    ensures r.Ok? <==> |scores| > 0 && (eliteSize >= |population| || (0 < tournamentSize <= |population| && genomeLength >= 2))
    ensures |scores| == 0 ==> r == Err(EmptySequence)
    ensures r.Ok? ==> |r.value| == |population|
    ensures r.Ok? ==> r.value[..|EliteIndices(scores, eliteSize)|] == Pick(population, EliteIndices(scores, eliteSize))
    ensures r.Ok? ==> AllLength(r.value, genomeLength)
    ensures r.Ok? && AllBits(population) ==> AllBits(r.value)
  {
    match Normalize(scores)
    case Err(e) => Err(e)
    case Ok(norm) =>
      var elite := Pick(population, EliteIndices(scores, eliteSize));
      FillOutcome(population, norm, genomeLength, rate, tournamentSize, |population|, rng, elite, 0, 0);
      Fill(population, norm, genomeLength, rate, tournamentSize, |population|, rng, elite, 0, 0)
  }

  // ---------------------------------------------------------------------------
  // The algorithm object
  // ---------------------------------------------------------------------------

  class GeneticAlgorithm {
    const populationSize: nat
    const genomeLength: nat
    const mutationRate: real
    const eliteSize: nat
    const tournamentSize: nat
    var population: seq<Genome>
    var generation: nat

    /** The population has the configured size and holds bit strings of the configured length. */
    predicate Valid()
      reads this
    {
      |population| == populationSize && AllLength(population, genomeLength) && AllBits(population)
    }

    constructor(coin: (nat, nat) -> bool, populationSize: nat := DEFAULT_POPULATION_SIZE,
                genomeLength: nat := DEFAULT_GENOME_LENGTH, mutationRate: real := DEFAULT_MUTATION_RATE,
                eliteSize: nat := DEFAULT_ELITE_SIZE, tournamentSize: nat := DEFAULT_TOURNAMENT_SIZE)
      ensures Valid()
      ensures this.populationSize == populationSize && this.genomeLength == genomeLength
      ensures this.mutationRate == mutationRate && this.eliteSize == eliteSize
      ensures this.tournamentSize == tournamentSize
      ensures population == InitialPopulation(populationSize, genomeLength, coin)
      ensures generation == 0
    {
      this.populationSize := populationSize;
      this.genomeLength := genomeLength;
      this.mutationRate := mutationRate;
      this.eliteSize := eliteSize;
      this.tournamentSize := tournamentSize;
      population := InitialPopulation(populationSize, genomeLength, coin);
      generation := 0;
    }

    /**
     * Breed the next generation from one score per genome. On an error
     * nothing changes; otherwise the population becomes NextPopulation's
     * and the generation counter advances by one.
     */
    method Evolve(scores: seq<real>, rng: Rng) returns (r: Result<(seq<Genome>, nat)>)
      requires Valid() && |scores| == |population|
      requires RngOk(rng, populationSize, tournamentSize, genomeLength)
      modifies this
      ensures Valid()
      ensures r.Ok? <==> NextPopulation(old(population), scores, genomeLength, mutationRate, eliteSize, tournamentSize, rng).Ok?
      ensures r.Err? ==> population == old(population) && generation == old(generation)
                         && r.error == NextPopulation(old(population), scores, genomeLength, mutationRate, eliteSize, tournamentSize, rng).error
      ensures r.Ok? ==> population == NextPopulation(old(population), scores, genomeLength, mutationRate, eliteSize, tournamentSize, rng).value
                        && generation == old(generation) + 1 && r.value == (population, generation)
    {
      var normalized := Normalize(scores);
      if normalized.Err? {
        return Err(normalized.error);
      }
      var norm := normalized.value;
      var current := population;
      var newPopulation := Pick(current, EliteIndices(scores, eliteSize));
      ghost var spec := Fill(current, norm, genomeLength, mutationRate, tournamentSize, populationSize, rng, newPopulation, 0, 0);
      var round, cursor := 0, 0;
      while |newPopulation| < populationSize
        invariant unchanged(this)
        invariant Fill(current, norm, genomeLength, mutationRate, tournamentSize, populationSize, rng, newPopulation, round, cursor) == spec
        decreases populationSize - |newPopulation|
      {
        var parent1 := SelectParent(current, norm, tournamentSize, rng.sample(2 * round));
        if parent1.Err? {
          return Err(parent1.error);
        }
        var parent2 := SelectParent(current, norm, tournamentSize, rng.sample(2 * round + 1));
        var children := Crossover(parent1.value, parent2.value, rng.points(round));
        if children.Err? {
          return Err(children.error);
        }
        var child1, child2 := children.value.0, children.value.1;
        child1, cursor := Mutate(child1, mutationRate, rng.uniform, cursor);
        if |newPopulation| < populationSize {
          newPopulation := newPopulation + [child1];
        }
        if |newPopulation| < populationSize {
          child2, cursor := Mutate(child2, mutationRate, rng.uniform, cursor);
          newPopulation := newPopulation + [child2];
        }
        round := round + 1;
      }
      population := newPopulation;
      generation := generation + 1;
      return Ok((population, generation));
    }
  }
}
