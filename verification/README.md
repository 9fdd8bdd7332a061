# Self-parking car trained by a genetic algorithm — a Dafny model

This project models the logic of a small Python program. In it, a car learns to park itself in a 800 × 600 arena. The car is driven by a linear controller whose 18 weights are encoded in a 180-bit genome. A genetic algorithm evolves a population of such genomes. The fitness of a genome is the reward its controller collects in one episode of the simulation.

The repository holds two copies of the program, `demo/` and `demo1/`. They have the same logic; the table below cites `demo1/`, and `demo/` rows are given where the older copy is the clearer reference.

The model has five modules:

- `Common` (common.dfy) holds the error outcomes the program raises as exceptions, `Option`/`Result`, the `{engine, wheels}` action, and the `max(min(x, hi), lo)` clamp.
- `Brain` (brain.dfy) holds the genome codec and the controller.
  - The 10-bit minifloat is decoded with its sign bit, its 4-bit exponent with bias 7 and its 5-bit mantissa with an implicit leading 1. The value is then clamped to [−100, 100].
  - A 90-bit half yields 9 coefficients, decoded by an append loop.
  - `make_decision` clamps the 8 readings to [0, 100], forms two affine signals, clamps them to [−100, 100] and thresholds a squash of each into −1, 0 or 1.
- `GeneticAlgorithm` (genetic.dfy) holds the operators and the algorithm object.
  - The operators are population initialisation, tournament selection, two-point crossover, and mutation with neighbour flips (an in-place index loop).
  - `evolve` performs min–max normalisation, keeps the elite by a stable descending sort, and runs the fill loop.
  - The algorithm object keeps its population and generation counter as fields that `Evolve` reassigns.
- `Environment` (environment.dfy) holds the simulation as a class with the program's mutable fields.
  - Geometry uses integer pygame rectangles. The walls, rays and sensors are modelled.
  - The class covers acceleration and turning, collisions, the shaped reward, the parked test, the end of an episode, `reset`, `step` and the obstacle list.
  - `Drive` is a function describing one move of the car. `Step` and `ApplyAction` are proved against it.
- `Trainer` (trainer.dfy) holds the evaluation of one genome by one episode, the scoring of a generation, the record of the best genome, and the training loop.

Several outside dependencies are parameters of the model:

- **Library mathematics.** Trigonometry, the square root and the size of pygame's rotated sprite are the fields of a `Geometry` value held by the environment. The model assumes only that square roots are non-negative, that `sqrt(0) = 0`, and that sizes are non-negative.
- **The logistic function.** It is a parameter `squash`. The lemmas that need it assume `squash(0) = 0.5` or monotonicity.
- **Randomness.** Random draws are explicit inputs: a `coin` for the initial bits, and an `Rng` value giving the tournament samples, the crossover point pairs and the uniform draws by call number.
- **Collision test.** pygame's `colliderect` is taken as pygame 2 documents it. The spans must overlap strictly on both axes, and a rectangle of zero width or height collides with nothing.

## Model

| member | source | states |
|---|---|---|
| Common.Clamp | demo1/src/brain.py:99 | the clamp lies in [lo, hi], is the identity inside, and saturates at either end |
| Common.ClampSymmetric | demo1/src/brain.py:133-134 | clamping into [−b, b] commutes with negation |
| Common.ClampMonotone | demo1/src/brain.py:120 | clamping is monotone in the clamped value |
| Brain.Reverse | demo1/src/brain.py:87-88 | `reversed` gives the same length with position i holding entry n−1−i |
| Brain.BinaryToFloat | demo1/src/brain.py:79-99 | exactly 10 bits decode, any other length is the "Expected 10 bits" error; every decoded value lies in [−100, 100] |
| Brain.ExponentFieldClosedForm | demo1/src/brain.py:86-88 | the exponent field is 8·b1 + 4·b2 + 2·b3 + b4, read most significant bit first |
| Brain.MantissaClosedForm | demo1/src/brain.py:92-94 | the mantissa is b5/2 + b6/4 + b7/8 + b8/16 + b9/32 |
| Brain.MagnitudeClosedForm | demo1/src/brain.py:83-97 | the unsigned value is (1 + mantissa) · 2^(8·b1+4·b2+2·b3+b4 − 7) |
| Brain.FieldRanges | demo1/src/brain.py:86-94 | for bits in {0, 1} the exponent field is in 0..15 and the mantissa in [0, 31/32] |
| Brain.MagnitudeSplit | demo1/src/brain.py:97 | the unsigned value lies between 2^(e−7) and twice that |
| Brain.DecodeMagnitudeBounds | demo1/src/brain.py:93-99 | every 10-bit pattern decodes into [1/128, 100] or [−100, −1/128], so zero is never produced |
| Brain.DecodeSignFlip | demo1/src/brain.py:83-99 | flipping only the sign bit negates the decoded value |
| Brain.DecodeAllZero | demo1/src/brain.py:83-99 | ten zero bits decode to exactly 1/128 |
| Brain.DecodeSaturates | demo/src/brain.py:50-52 | an exponent field of 14 or 15 decodes to exactly −100 or 100, by the sign bit |
| Brain.DecodeExactBelowSaturation | demo1/src/brain.py:97-99 | with an exponent field of at most 12 the clamp does not act: the value is sign · magnitude |
| Brain.BitsToCoefficients | demo1/src/brain.py:58-63 | a length that is a multiple of 10 gives one coefficient per 10-bit chunk, coefficient k decoding bits 10k..10k+9; any other length is the error of the short last chunk |
| Brain.NewBrain | demo1/src/brain.py:40-45 | a genome that is not 180 long is refused; otherwise 9 engine coefficients decode `genome[:90]` and 9 wheel coefficients decode `genome[90:]`, chunk by chunk |
| Brain.ClampSensors | demo1/src/brain.py:120 | every reading is clamped into [0, 100], and readings already inside are unchanged |
| Brain.DotOfZeros | demo1/src/brain.py:123-124 | with all readings 0 the weighted sum is 0 |
| Brain.Signal | demo1/src/brain.py:123-134 | the biased weighted sum, clamped, lies in [−100, 100] |
| Brain.SignalToAction | demo1/src/brain.py:152-165 | the action is −1, 0 or 1; −1 exactly when the squashed clamped signal is below 0.33, 1 exactly when it is above 0.66 |
| Brain.MakeDecision | demo1/src/brain.py:116-139 | exactly 8 readings give an action, any other count is the "Expected 8 sensor values" error; both components lie in {−1, 0, 1} |
| Brain.ZeroSignalIsNeutral | demo1/src/brain.py:152-165 | a signal of 0, squashed to 0.5, gives action 0 |
| Brain.ActionMonotone | demo1/src/brain.py:152-165 | with a monotone squash a larger signal never gives a smaller action |
| Brain.SensorAboveRangeSaturates | demo/src/brain.py:62 | a reading above 100 gives the same decision as 100 |
| Brain.SensorBelowRangeSaturates | demo/src/brain.py:62 | a reading below 0 gives the same decision as 0 |
| Brain.SilentSensorsGiveBias | demo1/src/brain.py:123-139 | with all readings 0 each action is decided by its bias coefficient alone |
| GeneticAlgorithm.InitialPopulation | demo1/src/genetic_algorithm.py:65-68 | population_size genomes, each genome_length entries, each entry 0 or 1 |
| GeneticAlgorithm.TournamentWinner | demo1/src/genetic_algorithm.py:80-84 | the winner's score is at least every sampled score, and every sample entry before it scores strictly less (ties go to the first drawn) |
| GeneticAlgorithm.FirstMaximumUnique | demo1/src/genetic_algorithm.py:84 | the first maximum of a sample is unique |
| GeneticAlgorithm.WinnerDependsOnlyOnOrder | demo1/src/genetic_algorithm.py:80-84 | two score lists with the same order give the same tournament winner |
| GeneticAlgorithm.SelectParent | demo1/src/genetic_algorithm.py:80-85 | a tournament larger than the population is the random.sample error, an empty one the max() error; otherwise the parent is a sampled genome whose score is at least every sampled score |
| GeneticAlgorithm.Crossover | demo1/src/genetic_algorithm.py:101-111 | parents of different lengths are refused, parents shorter than 2 cannot give two points; otherwise both children keep the length and swap exactly the positions between the sorted points |
| GeneticAlgorithm.CrossoverConservesGenes | demo1/src/genetic_algorithm.py:108-109 | at every position the two children hold the two parents' bits |
| GeneticAlgorithm.CrossoverOfEqualParents | demo/src/genetic_algorithm.py:52-53 | crossing a genome with itself gives two copies of it |
| GeneticAlgorithm.CrossoverKeepsBits | demo1/src/genetic_algorithm.py:108-109 | children of bit strings are bit strings |
| GeneticAlgorithm.Flip | demo1/src/genetic_algorithm.py:128 | inverts exactly one bit and leaves the others |
| GeneticAlgorithm.Mutate | demo1/src/genetic_algorithm.py:125-134 | the in-place loop over a copy computes MutateFrom, the draw-by-draw reference definition |
| GeneticAlgorithm.MutateAtShape | demo1/src/genetic_algorithm.py:127-133 | one position keeps the length and bit-ness and consumes between 1 and 3 draws |
| GeneticAlgorithm.MutateFromShape | demo1/src/genetic_algorithm.py:125-134 | mutation keeps the length and bit-ness and consumes between n and 3n draws for n positions |
| GeneticAlgorithm.MutateWithoutHits | demo1/src/genetic_algorithm.py:126-127 | with no draw below the rate the genome comes back unchanged after exactly n draws |
| GeneticAlgorithm.MutateAtIsLocal | demo1/src/genetic_algorithm.py:127-133 | a flip at i touches only i−1, i and i+1 |
| GeneticAlgorithm.MinOf | demo1/src/genetic_algorithm.py:150 | min() is at most every score and is one of them |
| GeneticAlgorithm.MaxOf | demo1/src/genetic_algorithm.py:151 | max() is at least every score and is one of them |
| GeneticAlgorithm.Scale | demo1/src/genetic_algorithm.py:155 | (f − min)/(max − min) lies in [0, 1]; it is 0 exactly at the minimum and 1 exactly at the maximum |
| GeneticAlgorithm.ScaleMonotone | demo1/src/genetic_algorithm.py:155 | scaling keeps the order of scores, both ways |
| GeneticAlgorithm.Normalize | demo1/src/genetic_algorithm.py:150-158 | an empty score list is the min() error; otherwise one value in [0, 1] per score |
| GeneticAlgorithm.NormalizeExtremes | demo1/src/genetic_algorithm.py:153-155 | when max ≠ min, a score normalises to 0 exactly when it is the minimum and to 1 exactly when it is the maximum |
| GeneticAlgorithm.NormalizeUniform | demo1/src/genetic_algorithm.py:156-158 | when all scores are equal each normalises to 1/N |
| GeneticAlgorithm.NormalizePreservesOrder | demo1/src/genetic_algorithm.py:150-158 | normalisation keeps the order of any two scores, both ways |
| GeneticAlgorithm.NormalizedTournamentUnchanged | demo1/src/genetic_algorithm.py:173-174 | a tournament on normalised scores picks the same winner as on raw scores |
| GeneticAlgorithm.Insert | demo1/src/genetic_algorithm.py:164-166 | inserting an index into a sorted list adds exactly that index |
| GeneticAlgorithm.InsertOrdered | demo1/src/genetic_algorithm.py:164-166 | insertion keeps the list in descending score order, ties by index |
| GeneticAlgorithm.SortByScore | demo1/src/genetic_algorithm.py:164-166 | the stable descending sort of range(n) is a permutation of range(n), in descending score order with ties in index order |
| GeneticAlgorithm.SortIsPermutation | demo1/src/genetic_algorithm.py:164-166 | every index occurs exactly once in the sort |
| GeneticAlgorithm.EliteIndices | demo1/src/genetic_algorithm.py:164-166 | min(elite_size, N) distinct indices in descending score order |
| GeneticAlgorithm.EliteIsTop | demo1/src/genetic_algorithm.py:164-166 | every kept index beats every dropped index, ties going to the lower index |
| GeneticAlgorithm.Pick | demo1/src/genetic_algorithm.py:167-168 | the elite genomes are copied in elite order |
| GeneticAlgorithm.Fill | demo1/src/genetic_algorithm.py:171-186 | the fill loop keeps what is already collected and stops at exactly the target size, with every genome of the right length and bit-ness |
| GeneticAlgorithm.FillOutcome | demo1/src/genetic_algorithm.py:171-186 | the fill loop fails exactly when a child is needed and the tournament size or genome length makes sampling impossible |
| GeneticAlgorithm.ChildrenOfPopulation | demo1/src/genetic_algorithm.py:173-177 | children of two members of a bit-string population are bit strings |
| GeneticAlgorithm.NextPopulation | demo1/src/genetic_algorithm.py:150-186 | empty scores are an error; otherwise the next population has population_size genomes, starts with the elite copied unchanged, and keeps length and bit-ness |
| GeneticAlgorithm.GeneticAlgorithm.constructor | demo1/src/genetic_algorithm.py:31-54 | stores the settings (defaulting to 100 genomes of 180 bits, mutation rate 0.01, 10 elites and tournaments of 5), draws the initial population and starts at generation 0 |
| GeneticAlgorithm.GeneticAlgorithm.Evolve | demo1/src/genetic_algorithm.py:136-191 | on success the population becomes NextPopulation's and the generation goes up by one, both returned; on an error nothing changes |
| Environment.OverlapSymmetric | demo1/src/environment.py:521 | colliding is symmetric |
| Environment.TouchingIsNotOverlap | demo1/src/environment.py:521 | rectangles that only share an edge do not collide |
| Environment.NearestPoint | demo1/src/environment.py:285-288 | the nearest point lies in the rectangle and is the point itself when the point is inside |
| Environment.Distance | demo1/src/environment.py:247-250 | distances are non-negative and 0 from a point to itself |
| Environment.Trunc | demo1/src/environment.py:478-479 | `int()` truncates toward zero |
| Environment.CreateBarriers | demo1/src/environment.py:136-147 | four walls |
| Environment.BarriersCoverBorder | demo1/src/environment.py:136-147 | a point of the arena is inside a wall exactly when it is within 4 of an edge |
| Environment.FirstHitUnique | demo1/src/environment.py:185-204 | a ray has exactly one reading |
| Environment.FindContaining | demo1/src/environment.py:195-197 | the scan over the obstacles finds one containing the point exactly when there is one |
| Environment.RayDistance | demo1/src/environment.py:166-204 | the stepping loop returns the number of free unit steps before the first blocked one (inside an obstacle, both borders included, or outside the arena), or 150 when none is blocked |
| Environment.StartRearRayReads95 | demo1/src/environment.py:185-204 | from the start position the backward ray (angle 180) reads 95 |
| Environment.SensorsInRange | demo1/src/environment.py:189-204 | every reading lies in [0, 150] |
| Environment.Accelerate | demo1/src/environment.py:430-439 | engine 1 raises the speed toward 2.5, −1 lowers it toward −1.25, anything else leaves it; the speed stays within its limits |
| Environment.Turn | demo1/src/environment.py:442-445 | below speed 0.1 the heading is unchanged; otherwise it becomes rotation + wheels reduced into [0, 360) |
| Environment.CarRect | demo1/src/environment.py:482-488 | the collision box is centred on the car square's centre and has the rotated sprite's size |
| Environment.CarSquare | demo1/src/environment.py:478-479 | the car square is centred on the truncated position |
| Environment.CollisionBox | demo1/src/environment.py:478-488 | the collision box is centred on the truncated candidate position |
| Environment.NoCollisionMeansInsideWalls | demo1/src/environment.py:517-539 | a box that collides with nothing lies at least 4 from every edge |
| Environment.FindOverlap | demo1/src/environment.py:520-531 | the scan finds a colliding rectangle exactly when there is one |
| Environment.AngleDiff | demo1/src/environment.py:630-637 | the heading deviation from 0 lies in [0, 180] |
| Environment.ParkedHeading | demo1/src/environment.py:616-642 | a parked car faces within 10 degrees of 0 |
| Environment.CenterDistance | demo1/src/environment.py:312-315 | the centre's distance to the spot is non-negative and 0 when the centre is inside |
| Environment.AverageCornerDistance | demo1/src/environment.py:318-331 | the mean corner distance is non-negative |
| Environment.ContainedBoxIsAtZero | demo1/src/environment.py:318-331 | a box inside the spot is at mean distance 0 |
| Environment.ParkedCarIsAtZero | demo1/src/environment.py:616-642 | a parked car is at mean distance 0 from the spot |
| Environment.ImprovedBest | demo1/src/environment.py:583-585 | the best distance becomes the smaller of the two, one of them |
| Environment.ShapingReward | demo1/src/environment.py:582-585 | the corrected shaping term is non-negative and positive exactly when a finite best is improved |
| Environment.ShapingRewardAsWritten | demo1/src/environment.py:582-585 | as written, no improvement earns 0 |
| Environment.RewardBounds | demo1/src/environment.py:575-592 | a reward is never below -100.1; without a collision or parking a step earns its shaping term less 0.1; a collision alone costs exactly 100 more; parking without a collision earns exactly the shaping term plus 999.9 |
| Environment.FinalBest | demo1/src/environment.py:583-585 | the best distance never increases |
| Environment.ShapingTelescopes | demo1/src/environment.py:582-585 | from a finite best b the shaping terms of an episode add up to 10 · (b − final best) |
| Environment.ShapingBounded | demo1/src/environment.py:582-585 | with the corrected term the episode's shaping total lies between 0 and 10 times the first measured distance |
| Environment.FinalBestNonNegative | demo1/src/environment.py:583-585 | the best distance of non-negative measurements stays non-negative |
| Environment.AsWrittenEpisodeIsInfinite | demo1/src/environment.py:121 | as written, an episode's shaping total is infinite once a finite distance is measured |
| Environment.RemoveFirst | demo1/src/environment.py:712-713 | removes one occurrence if there is one and nothing otherwise |
| Environment.RemoveUndoesAdd | demo1/src/environment.py:684-713 | removing a rectangle just added, and absent before, restores the list |
| Environment.RemoveFirstKeepsPrefix | demo1/src/environment.py:712-713 | it is the first occurrence that is removed |
| Environment.Drive | demo1/src/environment.py:402-545 | one move: the speed is accelerated and the heading turned; a collision zeroes the speed, adds one to the counter and keeps the position; otherwise the car moves to the candidate position exactly when the speed is not 0 |
| Environment.DriveKeepsSpeedLimits | demo1/src/environment.py:430-439 | a move keeps the speed in [−1.25, 2.5] |
| Environment.DriveWithoutCollisionStaysInside | demo1/src/environment.py:517-539 | a move without a collision leaves the box inside the walls |
| Environment.Environment.constructor | demo1/src/environment.py:85-124 | the car at (100, 300) at rest facing 0, no obstacles, no collision box, best and mean distance infinite, eight zero readings |
| Environment.Environment.GetState | demo1/src/environment.py:352-360 | a reported collision implies a finished episode |
| Environment.Environment.UpdateParkingDistance | demo1/src/environment.py:308-331 | with no collision box nothing changes; otherwise the centre distance and mean corner distance of the box are stored |
| Environment.Environment.UpdateSensors | demo1/src/environment.py:213-233 | the eight readings are the first hits at angles 0, 45, …, 315 plus the heading, and the distances are refreshed |
| Environment.Environment.CheckCollisions | demo1/src/environment.py:517-545 | detects exactly a collision; a collision zeroes the speed and adds one to the counter, nothing else changes |
| Environment.Environment.UpdatePosition | demo1/src/environment.py:469-496 | boxes placed at the candidate position; the position is committed only without a collision and with a non-zero speed |
| Environment.Environment.ApplyAction | demo1/src/environment.py:425-448 | the new car state and boxes are Drive's |
| Environment.Environment.CalculateReward | demo1/src/environment.py:575-595 | the reward is the step's reward with the corrected shaping term, the best distance improves, the fitness grows by the reward |
| Environment.Environment.CheckEpisodeEnd | demo1/src/environment.py:677-682 | done exactly on a collision, 1000 steps or parking, and done sets the finished flag |
| Environment.Environment.Step | demo1/src/environment.py:381-400 | a finished episode changes nothing and reports 0 and done; otherwise the move is Drive's, the step count rises by one, the readings are taken at the new pose, reward, fitness and done follow, and the invariant is kept |
| Environment.Environment.Reset | demo1/src/environment.py:158-164 | the initial car state, a cleared episode, best distance infinite, readings at the start pose; the collision box is left as it was |
| Environment.Environment.AddCustomRectangle | demo1/src/environment.py:696 | appends the rectangle |
| Environment.Environment.RemoveCustomRectangle | demo1/src/environment.py:712-713 | removes its first occurrence, if any |
| Trainer.Keep | demo1/train.py:184-185 | the running best becomes a score at least the old best and the new score |
| Trainer.GenerationBestIsMaximum | demo1/train.py:167-185 | the generation best is −inf exactly for no scores, and otherwise one of the scores and at least every score |
| Trainer.FirstIndexOf | demo1/train.py:196-197 | `list.index` returns the first position holding the value |
| Trainer.SavedIndex | demo1/train.py:193-197 | a genome is saved exactly when the generation best beats the overall best, and it is the first genome holding the generation maximum |
| Trainer.GenerationBestAppend | demo1/train.py:167-185 | the best of two runs of scores is the larger of their bests |
| Trainer.OverallBestIsBestOfAll | demo1/train.py:162-194 | the overall best is the best score over all generations together |
| Trainer.OverallBestNeverDecreases | demo1/train.py:193-194 | the overall best never goes down |
| Trainer.RecordGeneration | demo1/train.py:193-201 | the overall best becomes the higher one, and only a strict improvement saves a genome, the first holding the maximum; saved fitnesses rise strictly and the last is the overall best |
| Trainer.Trainer.constructor | demo1/train.py:47-53 | a new environment and a population of 50 random 180-bit genomes with rate 0.03, elite 5, tournament 5, at generation 0; these settings let every generation train |
| Trainer.Trainer.RunEpisode | demo1/train.py:93-104 | no step is issued once a collision is reported or the episode is over; the episode always ends within 1000 steps, and the total is the environment's accumulated fitness |
| Trainer.Trainer.EvaluateGenome | demo1/train.py:78-131 | a genome that is not 180 long is refused before the environment is touched; otherwise the environment ends reset, with the car at the start and a cleared episode |
| Trainer.Trainer.EvaluatePopulation | demo1/train.py:167-185 | one score per genome in order, the running best being the generation best; the first genome of the wrong length stops it |
| Trainer.Trainer.Generation | demo1/train.py:163-211 | one generation: it succeeds exactly when the population is non-empty, its genomes are 180 long and evolve can breed from it; a wrong genome length fails with the controller's length error, an empty population with the division by zero of the average fitness, otherwise evolve's own error, and a failure leaves the population and generation counter as they were; on success the next population is what evolve breeds from one score per genome and the record is the generation's bookkeeping |
| Trainer.Trainer.Train | demo1/train.py:161-214 | the run succeeds exactly when there are no generations or the settings let every generation train, and a failing run fails in its first generation with the cause named, the population untouched; on success each generation scores the current population, one score per genome, and evolve breeds the next population from those scores with that generation's draws, the generation counter rising by one each time; the overall best returned is the best score of all generations; the saved genomes have strictly rising fitness and generation, the last holding the overall best, and each is the first genome of its generation's population that reached that generation's best score |
| Trainer.PopulationAccepted | demo1/train.py:78 | a population of equal-length genomes is accepted by the controller exactly when it is empty or the length is 180 |
| Trainer.RunExtends | demo1/train.py:163-211 | a run grows by one generation: the next population is bred from the last, and the bookkeeping of the longer run is the shorter run's followed by the new generation's record |
| Trainer.RecordsSummary | demo1/train.py:192-201 | the bookkeeping over a run keeps the best of all generations and saves genomes with strictly rising fitness and generation, each the first in its own generation's population to reach that generation's best |
| Trainer.LineageExtends | demo1/train.py:163-211 | a run's chain of populations grows by one generation when evolve breeds the next population from the last |

## Left out

- The visual branch of `evaluate_genome`, the pygame window and event loop of `game.py`, and all printing, `os.makedirs`, the `save_genome` file write and `pygame.time.wait` in `train` are I/O. Their only logical effect is a window-close event ending an evaluation early, and that is not modelled. The first genome of each later generation is evaluated like every other.
- Trigonometry, `sqrt`, `exp` and pygame's rotated-surface size come from libraries and are parameters. Floating-point rounding is not modelled: positions, speeds, distances and rewards are exact reals.
- `random.randint`, `random.sample` and `random.random` are explicit inputs. The model does not say anything about their distribution.
- `get_population`, `get_generation` and `get_fitness` are plain field reads of the classes. `get_coefficients`, `get_genome` and `get_render_data` are accessors for display.
- The genetic algorithm's `best_fitness`/`best_genome`, `get_best_genome` and `get_stats` are not modelled. Those fields are never updated.
- `time_elapsed` in the car state is never advanced and is not modelled. The trainer's unused `best_fitness` and `visualization_frequency` are also left out.
- The `except (OverflowError, ValueError)` branch of `_signal_to_action` cannot be reached after the ±500 clamp. The model keeps only the clamp and the squash.
- GeneticAlgorithm.GeneticAlgorithm.Evolve: requires one score per genome. The program also runs with fewer scores, so this requirement is stronger than the program's.
- Trainer.Trainer.Train: the random draws for every generation must be well formed; a draw the library could not produce is not modelled.
- Trainer.Trainer.Train: an empty population is reported as a division by zero, the error of `avg_fitness`. The error of `evolve` on the same input comes later and is not reached.
- Trainer.Trainer.Train: each generation's scores are those EvaluatePopulation returned for its population, but they are not stated as a function of the genomes, for the reason given for EvaluateGenome below.
- Trainer.Trainer.EvaluateGenome: the returned total is stated, through RunEpisode, as the fitness the environment accumulated. It is not stated as a function of the genome, because the sensor readings are specified by a relation rather than computed by a function.
- Environment.Environment.CalculateReward: uses the corrected shaping term (see Findings). The as-written term is modelled separately.

## Findings

| source | as written | input that shows it | evidently intended | confidence | as-written member | corrected member |
|---|---|---|---|---|---|---|
| demo1/src/environment.py:121 | `best_distance` starts at `float('inf')`, and the first step with a finite mean distance d earns `(inf − d) · 10 = +inf` | the first step of any episode: `best_distance` has just been set to inf by the constructor or `reset`, and the step places a collision box whose mean distance d is finite | the first finite distance only initialises the best distance, and later improvements earn 10 per unit; an episode's shaping total is then 10 · (first − final best) | not executed | Environment.AsWrittenEpisodeIsInfinite | Environment.ShapingTelescopes |
