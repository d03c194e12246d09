# Biome Buddy simulation core in Dafny

Biome Buddy is a browser game: the player looks after an ecosystem of species arranged in
trophic levels (producers, primary, secondary and tertiary consumers). The player can keep it
going for years of rounds, and each year has four seasons. This project models the game's
simulation core as pure functions over immutable values, and proves what each step promises.

- **Populations.** A population is grown or thinned by its base growth and mortality rates.
- **Game context.** It holds the round counter, the trophic levels and the population registry.
  The season comes from the round number.
- **The game engine.** Each round it runs four systems in a fixed order, then advances the round
  counter:
  1. the season system scales producer growth and mortality by season;
  2. the player-action system is meant to boost the population the player picked. As written it
     throws on every valid choice, so no round of the source ever completes (see "## Findings").
     The engine here composes the corrected step, and the as-written engine is modelled beside it;
  3. the food-chain system compares adjacent trophic levels against their ideal ratio and
     pushes predators and prey back towards it;
  4. the disaster system either runs the popup flow (show a disaster, then apply the player's
     chosen action on the next round) or, once per game year, strikes with a 70% chance and
     shrinks every listed population by a per-level fraction.
- **Health scores.** Two ecosystem-health calculations and their shared deviation helpers.
- **Species records.** The legacy species records with their id counter.
- **Log and bus.** The newest-first game log store, and the disaster bus that turns a key or an
  object into the payload shown to the player.

JavaScript semantics are written out where they matter:

- `Math.round` rounds half up.
- `Math.floor` is a true floor.
- `Number(x) || 0` coerces anything non-numeric to 0.
- A map lookup by `Number(key)` misses when the key does not parse.
- `x || 1` replaces a zero ideal ratio by 1.
- A thrown exception is a `Step(state, thrown)` value. The effects made before the throw stay,
  because the source has no rollback.
- The two `Math.random()` draws of the disaster system are parameters (`roll`, `pick`), and so is
  `Date.now()` in the log store.

Where the code and its tests disagree, the model follows the code:

- Under prey scarcity the prey grows. With 10 prey and 1000 predators the predators only fall to
  900.2 (FoodChainSystem.ScarcePreyExample).
- With ideal ratios 1000/400/150/80 (the biomass values of ecosystemConfig.js),
  ecosystemBalance.js gives 0.025 for a lone producer. The test at
  ecosystemBalanceTest.test.jsx:66-79 expects 0.
- The shipped ecosystemConfig.js has no `idealRatio` fields, so as written
  `calculateEcosystemBalance` gives NaN for every input, that test's included, and the caller at
  Game.jsx:121-123 always takes its fallback (see "## Findings").

## Model

| member | source | states |
|---|---|---|
| JsNumbers.Round | biome-buddy/src/systems/DisasterSystem.jsx:16 | `Math.round` gives the unique integer within half a unit, ties going up |
| JsNumbers.RoundUnique | biome-buddy/src/systems/DisasterSystem.jsx:25 | any integer within [-1/2, 1/2) of x is the rounding of x, so rounding results can be computed by bracketing |
| JsNumbers.FloorDiv | biome-buddy/src/GameContext.jsx:18 | `Math.floor(a / b)` is the greatest integer not above the quotient |
| JsNumbers.JsRem | biome-buddy/src/GameContext.jsx:18 | JavaScript's `%` truncates: the remainder has the dividend's sign and is smaller than the divisor in magnitude |
| JsNumbers.NumberOr0 | biome-buddy/src/lib/species.js:20-26 | `Number(x) \|\| 0` with a parameter default: a non-numeric argument gives 0, a number is kept, and an omitted argument takes the default |
| JsNumbers.ParseNumber | biome-buddy/src/systems/FoodChainSystem.jsx:11 | `Number(id)` of an object key: the empty key is 0, and a digit string is its decimal value |
| JsNumbers.KeyRoundTrip | biome-buddy/src/systems/FoodChainSystem.jsx:11 | the decimal key written for id n parses back to n, so numeric species ids survive the round trip through object keys |
| Populations.NewPopulation | biome-buddy/src/Population.jsx:2-7 | every omitted constructor argument defaults to 0, and the given ones are stored |
| Populations.Grow | biome-buddy/src/Population.jsx:14-17 | the size scales by `1 + growthRate * multiplier`; id and rates are untouched |
| Populations.Mortality | biome-buddy/src/Population.jsx:19-22 | the size scales by `1 - mortalityRate * multiplier`; id and rates are untouched |
| Populations.GrowMortalityCommute | biome-buddy/src/Population.jsx:14-22 | a growth step and a mortality step give the same population in either order |
| Populations.MortalityNonNegativeIff | biome-buddy/src/Population.jsx:19-22 | a mortality step keeps a non-negative size non-negative exactly when the size is 0 or rate times multiplier is at most 1 |
| Populations.GrowNonNegative | biome-buddy/src/Population.jsx:14-17 | growth with a factor at least 0 keeps a non-negative size non-negative |
| Populations.UpdateExamples | biome-buddy/tests/Population.test.jsx:22-40 | the four update expectations of the population tests: 110, 120, 95 and 90 from 100 |
| Trophic.SpeciesKeys | biome-buddy/src/systems/FoodChainSystem.jsx:27-28 | `Object.keys(speciesMap)` lists each entry's key, in order |
| Trophic.IdealOr1 | biome-buddy/src/systems/FoodChainSystem.jsx:37 | `idealRatio \|\| 1` is never 0: a zero ratio reads as 1, and any other ratio is kept |
| Trophic.NewTrophicLevel | biome-buddy/src/Trophic.jsx:1-8 | an omitted species map is empty and an omitted ideal ratio is 1 |
| Trophic.CanonicalLevels | biome-buddy/src/Trophic.jsx:10-32 | the four subclasses have priorities 0..3 in increasing order, their names, ratio 1 and no species |
| GameContexts.DefaultPopulations | biome-buddy/src/GameContext.jsx:9-11 | the registry holds exactly the listed ids, each with an empty, zero-rate population |
| GameContexts.NewContext | biome-buddy/src/GameContext.jsx:5-13 | a fresh context is at round 1 with three rounds per season, populations 1..3 of size 0, no trophic levels and no disaster |
| GameContexts.DetermineSeason | biome-buddy/src/GameContext.jsx:15-20 | season index `floor((round - 1) / n) mod 4` into Spring..Winter; with n = 0 the index is NaN and no season is found |
| GameContexts.FloorDivOfInts | biome-buddy/src/GameContext.jsx:18 | for integer operands the JavaScript floor of the quotient is Dafny's division |
| GameContexts.SeasonPeriodic | biome-buddy/src/GameContext.jsx:15-20 | the season repeats every 4n rounds |
| GameContexts.SeasonOfLastRound | biome-buddy/src/GameContext.jsx:15-20 | the last round of the k-th block of n rounds is in season (k-1) mod 4 |
| GameContexts.SeasonExamples | biome-buddy/tests/GameContext.test.jsx:36-47 | rounds n, 2n, 3n, 4n, 5n are Spring, Summer, Fall, Winter and Spring again |
| GameContexts.IncreaseRound | biome-buddy/src/GameContext.jsx:22-24 | the round counter goes up by one and nothing else changes |
| HealthHelpers.RatioDeviation | biome-buddy/src/helperFunctions/healthCalculateHelperFunctions.jsx:9-14 | relative deviation of the actual ratio from a positive ideal: non-negative, and 0 exactly when the ratios are equal |
| HealthHelpers.RatioDeviationScaleInvariant | biome-buddy/src/helperFunctions/healthCalculateHelperFunctions.jsx:9-14 | scaling both actual values by the same positive factor leaves the deviation unchanged |
| HealthHelpers.DeviationToScore | biome-buddy/src/helperFunctions/healthCalculateHelperFunctions.jsx:22-25 | within tolerance the score is 1; beyond it the score is `1 - deviation`, floored at 0.1; it is always between 0.1 and 1 for non-negative deviations |
| HealthHelpers.DeviationToScoreMonotone | biome-buddy/src/helperFunctions/healthCalculateHelperFunctions.jsx:22-25 | a larger deviation never scores higher |
| HealthHelpers.SumBounds | biome-buddy/src/EcosystemHealth.jsx:81 | a sum of values in [0, 1] lies between 0 and the count |
| HealthHelpers.SumOfZeros | biome-buddy/src/ecosystemBalance.js:77 | a sum of zeros is 0 |
| HealthHelpers.Mean | biome-buddy/src/ecosystemBalance.js:77 | the mean is NaN exactly for an empty list; it is in [0, 1] when every value is, and 0 when every value is 0 |
| SeasonSystem.ModifierOr1 | biome-buddy/src/systems/SeasonSystem.jsx:25-26 | `table[season] \|\| 1.0`: a missing or zero modifier reads as 1, and any other modifier is used |
| SeasonSystem.ModifierValues | biome-buddy/src/systems/SeasonSystem.jsx:6-17 | the growth and mortality modifiers of the four seasons, and 1 for an unknown season |
| SeasonSystem.FirstMissing | biome-buddy/src/systems/SeasonSystem.jsx:28-36 | the position of the first producer with no population: all before it resolve, and it does not |
| SeasonSystem.UpdatedPrefixStep | biome-buddy/src/systems/SeasonSystem.jsx:28-36 | updating the producers one by one: the first producer gets its update and the rest is the update of the tail |
| SeasonSystem.UpdateProducers | biome-buddy/src/systems/SeasonSystem.jsx:28-36 | every producer before the first missing one gets one growth and one mortality step; a missing producer throws with the earlier updates kept |
| SeasonSystem.Apply | biome-buddy/src/systems/SeasonSystem.jsx:20-37 | only populations change and the registry keeps its keys; no trophic levels throws at once; otherwise the producers are updated with the season's modifiers |
| SeasonSystem.SpringExample | biome-buddy/tests/SeasonSystem.test.jsx:31-48 | in spring a producer of 100 with rates 0.1 and 0.05 ends the round at 112.125; a producer with no population throws ProducerNotFound naming it |
| PlayerActionSystem.SetSpeciesIdChoice | biome-buddy/src/systems/PlayerActionSystem.jsx:19-21 | the choice becomes the given id, replacing any earlier one, and the context is untouched |
| PlayerActionSystem.ApplyAsWritten | biome-buddy/src/systems/PlayerActionSystem.jsx:11-17 | as written the call always throws and never changes the state, because the boost method it calls does not exist on Population |
| PlayerActionSystem.AsWrittenThrowsOnValidChoice | biome-buddy/src/systems/PlayerActionSystem.jsx:15 | even with a valid choice in a fresh context the call throws a TypeError for the missing method |
| PlayerActionSystem.Apply | biome-buddy/src/systems/PlayerActionSystem.jsx:11-17 | no choice, or a choice with no population, throws and changes nothing; a valid choice grows exactly that population by twice its growth rate, leaves the others alone and clears the choice |
| PlayerActionSystem.ChooseThenApply | biome-buddy/src/systems/PlayerActionSystem.jsx:11-21 | after choosing a species, the corrected apply grows exactly that population by the multiplier 2 and clears the choice, or throws `ChoiceNotFound` with nothing changed when it has no population; only the last of two choices counts |
| PlayerActionSystem.ChooseThenApplyAsWritten | biome-buddy/src/systems/PlayerActionSystem.jsx:11-21 | as written, apply after a choice throws `ChoiceNotFound` for an unknown species and the TypeError for a known one, and changes nothing |
| PlayerActionSystem.AtMostOneBoostPerChoice | biome-buddy/src/systems/PlayerActionSystem.jsx:16 | after a successful boost the next call throws for lack of a choice, so one choice gives at most one boost |
| FoodChainSystem.NumberKey | biome-buddy/src/systems/FoodChainSystem.jsx:11 | an object key resolves to a numeric registry key exactly when it parses as a number |
| FoodChainSystem.TotalPopulation | biome-buddy/src/systems/FoodChainSystem.jsx:8-17 | the total is non-negative for non-negative sizes, 0 when no id resolves, and with non-negative sizes 0 only when every resolving id has size 0 |
| FoodChainSystem.UpdateAll | biome-buddy/src/systems/FoodChainSystem.jsx:45-56 | an update loop never adds or removes registry keys |
| FoodChainSystem.UpdateAllAt | biome-buddy/src/systems/FoodChainSystem.jsx:45-56 | a population no id names is unchanged; with distinct ids a named population gets exactly one update; identity and rates never change |
| FoodChainSystem.ClassifyTotals | biome-buddy/src/systems/FoodChainSystem.jsx:34-44 | a pair is skipped iff a total is 0, within tolerance iff the deviation is below 0.2, prey-scarce iff beyond tolerance with actual ratio below ideal, otherwise prey-abundant |
| FoodChainSystem.Classify | biome-buddy/src/systems/FoodChainSystem.jsx:27-44 | the same classification for two adjacent levels, using their totals and `idealRatio \|\| 1` |
| FoodChainSystem.ApplyEffect | biome-buddy/src/systems/FoodChainSystem.jsx:44-71 | applying a pair's effect keeps the registry's keys |
| FoodChainSystem.ApplyEffectAt | biome-buddy/src/systems/FoodChainSystem.jsx:44-71 | a population named by neither level is unchanged, and every population keeps its identity |
| FoodChainSystem.ApplyPair | biome-buddy/src/systems/FoodChainSystem.jsx:24-71 | one pair step keeps the registry's keys |
| FoodChainSystem.ApplyPairsFrom | biome-buddy/src/systems/FoodChainSystem.jsx:23-72 | the pair loop keeps the registry's keys |
| FoodChainSystem.ApplyPairsFromAt | biome-buddy/src/systems/FoodChainSystem.jsx:23-72 | a population that no level names is never touched by the pair loop |
| FoodChainSystem.Apply | biome-buddy/src/systems/FoodChainSystem.jsx:19-73 | only populations change, and the registry keeps its keys |
| FoodChainSystem.ApplyOnlyTouchesNamed | biome-buddy/src/systems/FoodChainSystem.jsx:19-73 | a round leaves unnamed populations exactly as they were and never changes any population's identity |
| FoodChainSystem.ScarceMultiplierBounds | biome-buddy/src/systems/FoodChainSystem.jsx:44-56 | under scarcity with non-negative sizes the deviation lies in [0.2, 1), so predator mortality uses a multiplier in [1.2, 2) and prey growth one in [1.1, 1.5) |
| FoodChainSystem.NotReferencedByBoth | biome-buddy/src/systems/FoodChainSystem.jsx:27-28 | when two levels' keys resolve to disjoint populations, no population is named by both |
| FoodChainSystem.ScarceEffectAt | biome-buddy/src/systems/FoodChainSystem.jsx:44-56 | under scarcity each predator gets one mortality step with `1 + d` and each prey one growth step with `1 + d/2` |
| FoodChainSystem.AbundantEffectAt | biome-buddy/src/systems/FoodChainSystem.jsx:57-71 | under abundance each predator gets one growth step with `1 + d` and each prey one mortality step with `1 + d/4` |
| FoodChainSystem.ScarcityEffects | biome-buddy/src/systems/FoodChainSystem.jsx:44-56 | a prey-scarce pair: predators decline by `1 + d` and prey recover by `1 + d/2`, where d is the pair's own deviation |
| FoodChainSystem.AbundanceEffects | biome-buddy/src/systems/FoodChainSystem.jsx:57-71 | a prey-abundant pair: predators grow by `1 + d` and prey die off by `1 + d/4` |
| FoodChainSystem.QuietPairUnchanged | biome-buddy/src/systems/FoodChainSystem.jsx:34-41 | a skipped pair or one within tolerance changes nothing |
| FoodChainSystem.AtIdealIsQuiet | biome-buddy/src/systems/FoodChainSystem.jsx:34-41 | a pair at exactly its ideal ratio is skipped or within tolerance with deviation 0 |
| FoodChainSystem.ClassifyAtIdeal | biome-buddy/src/systems/FoodChainSystem.jsx:34-41 | the same fact stated on the totals |
| FoodChainSystem.BalancedPairsUnchanged | biome-buddy/src/systems/FoodChainSystem.jsx:23-72 | when every adjacent pair is at its ideal ratio, the pair loop changes nothing |
| FoodChainSystem.BalancedIsFixedPoint | biome-buddy/src/systems/FoodChainSystem.jsx:19-73 | an ecosystem at its ideal ratios is a fixed point of the food chain step |
| FoodChainSystem.BalancedStaysPut | biome-buddy/src/systems/FoodChainSystem.jsx:19-73 | from the ideal ratios any number of rounds changes nothing, so no size turns negative |
| FoodChainSystem.UpdateOne | biome-buddy/src/systems/FoodChainSystem.jsx:45-50 | a loop over one resolving id updates exactly that population |
| FoodChainSystem.EmptyPredatorSkipped | biome-buddy/src/systems/FoodChainSystem.jsx:34 | a predator level with no species totals 0, so the pair is skipped |
| FoodChainSystem.TwoSpeciesRound | biome-buddy/tests/FoodChainSystem.test.jsx:6-29 | with one producer and one primary consumer under the test fixture, a round is exactly that pair's effect; the empty upper levels are skipped |
| FoodChainSystem.FixtureKeys | biome-buddy/tests/FoodChainSystem.test.jsx:19-25 | the fixture's keys "1".."4" resolve to registry ids 1..4 |
| FoodChainSystem.TwoSpeciesScarce | biome-buddy/src/systems/FoodChainSystem.jsx:44-56 | the scarce effect on the fixture: predator `* (1 - 0.05 (1 + d))`, prey `* (1 + 0.1 (1 + d/2))` |
| FoodChainSystem.TwoSpeciesAbundant | biome-buddy/src/systems/FoodChainSystem.jsx:57-71 | the abundant effect on the fixture: predator `* (1 + 0.1 (1 + d))`, prey `* (1 - 0.05 (1 + d/4))` |
| FoodChainSystem.ScarceRound | biome-buddy/src/systems/FoodChainSystem.jsx:19-56 | a whole round on the two-species fixture under scarcity gives those two sizes |
| FoodChainSystem.AbundantRound | biome-buddy/src/systems/FoodChainSystem.jsx:19-71 | a whole round on the two-species fixture under abundance gives those two sizes |
| FoodChainSystem.NearIdealIsStable | biome-buddy/tests/FoodChainSystem.test.jsx:64-70 | 1000 prey and 380 predators are within tolerance, so nothing changes |
| FoodChainSystem.ScarcePreyExample | biome-buddy/tests/FoodChainSystem.test.jsx:46-53 | 10 prey and 1000 predators: the predators fall to 900.2 and the prey rise to 11.498 |
| FoodChainSystem.AbundantPreyExample | biome-buddy/tests/FoodChainSystem.test.jsx:55-62 | 5000 prey and 100 predators: the predators rise to 300 and the prey fall to 3562.5 |
| FoodChainSystem.AbundanceCanTurnPreyNegative | biome-buddy/src/systems/FoodChainSystem.jsx:65-70 | prey mortality has no floor: 100000 prey and 1 predator leave the prey at -49903750 |
| FoodChainSystem.ZeroTotalsAreSkipped | biome-buddy/tests/FoodChainSystem.test.jsx:38-44 | zero prey and zero predators change nothing |
| FoodChainSystem.FourSpeciesTotals | biome-buddy/tests/FoodChainSystem.test.jsx:6-29 | each level of the four-species fixture totals its one species' size |
| FoodChainSystem.ProportionalIsBalanced | biome-buddy/tests/FoodChainSystem.test.jsx:96-112 | sizes in the proportions 1000:400:150:80 put every pair at its ideal ratio |
| FoodChainSystem.SingleKeyTotal | biome-buddy/src/systems/FoodChainSystem.jsx:8-17 | the total of one resolving id is that population's size |
| FoodChainSystem.PairAtIdealIntro | biome-buddy/src/systems/FoodChainSystem.jsx:36-37 | equal actual and ideal ratios with a non-zero predator total make the pair balanced |
| FoodChainSystem.PairwiseIdealRatios | biome-buddy/src/systems/FoodChainSystem.jsx:23 | four levels are balanced when their three adjacent pairs are |
| FoodChainSystem.CrashTestExample | biome-buddy/tests/FoodChainSystem.test.jsx:96-112 | the crash test fixture is unchanged after any number of rounds and every size stays non-negative |
| EcosystemHealth.SpeciesScore | biome-buddy/src/EcosystemHealth.jsx:15-19 | population times the weighted biomass and energy; non-negative for non-negative inputs |
| EcosystemHealth.EntryScoreFacts | biome-buddy/src/EcosystemHealth.jsx:35-49 | one species adds a non-negative amount; with positive data it adds 0 exactly when it is extinct or has no population |
| EcosystemHealth.LevelScore | biome-buddy/src/EcosystemHealth.jsx:31-51 | a level scores 0 when every species is extinct, is non-negative for non-negative data, and with positive data is 0 only when every species is extinct |
| EcosystemHealth.Summarize | biome-buddy/src/EcosystemHealth.jsx:31-51 | a level's score is the sum of its species' scores, and its ideal is `idealRatio \|\| 1`: the ratio itself, or 1 when it is 0, so never 0 |
| EcosystemHealth.Summaries | biome-buddy/src/EcosystemHealth.jsx:31-51 | one summary per level, in order |
| EcosystemHealth.NormalizedScore | biome-buddy/src/EcosystemHealth.jsx:52-75 | NaN exactly when this level and the one above both score 0; otherwise at most 1, non-negative for a non-negative score, and `min(1, score/ideal)` for the top level |
| EcosystemHealth.NormalizedMatchesHelpers | biome-buddy/src/helperFunctions/healthCalculateHelperFunctions.jsx:9-25 | the inline normalisation equals the helpers: 1 within tolerance, else `min(1, score/ideal * deviationToScore(d))` |
| EcosystemHealth.AmpleLevelScoresOne | biome-buddy/src/EcosystemHealth.jsx:52-75 | a level scoring at least ten times its ideal normalises to 1 |
| EcosystemHealth.NormalizedScores | biome-buddy/src/EcosystemHealth.jsx:52-75 | one value per level, each against the level above it |
| EcosystemHealth.Values | biome-buddy/src/EcosystemHealth.jsx:81 | the numbers of a NaN-free list, in order |
| EcosystemHealth.MeanOfScores | biome-buddy/src/EcosystemHealth.jsx:81 | NaN exactly for no levels or a NaN value; in [0, 1] when every value is; 1 when every value is 1 |
| EcosystemHealth.SumOfOnes | biome-buddy/src/EcosystemHealth.jsx:81 | the sum of n ones is n |
| EcosystemHealth.NaNAt | biome-buddy/src/EcosystemHealth.jsx:52-75 | a level's value is NaN exactly when it and the level above both score 0 |
| EcosystemHealth.NaNIffAdjacentZeros | biome-buddy/src/EcosystemHealth.jsx:26-83 | some level value is NaN exactly when two adjacent levels both score 0 |
| EcosystemHealth.LevelValuesInUnit | biome-buddy/src/EcosystemHealth.jsx:52-75 | with non-negative inputs every numeric level value is in [0, 1] |
| EcosystemHealth.Calculate | biome-buddy/src/EcosystemHealth.jsx:26-83 | health is NaN exactly for no levels or two adjacent zero-scoring levels; otherwise it is in [0, 1] for non-negative inputs |
| EcosystemHealth.CalculateForContext | biome-buddy/src/EcosystemHealth.jsx:26-83 | a context's health is NaN exactly when it has no trophic levels or two adjacent levels both score 0; otherwise it is in [0, 1] when sizes, data and ideals are non-negative |
| EcosystemHealth.AmpleScoresGiveFullHealth | biome-buddy/src/EcosystemHealth.jsx:26-83 | when every level scores at least ten times its ideal, health is exactly 1 |
| EcosystemHealth.EmptyEcosystemIsNaN | biome-buddy/src/EcosystemHealth.jsx:26-83 | with two or more levels and every species extinct, health is NaN rather than 0 |
| EcosystemBalance.InsertionPoint | biome-buddy/src/ecosystemBalance.js:32-34 | the insertion point lies after every level of lower or equal priority and before the first of higher priority |
| EcosystemBalance.Insert | biome-buddy/src/ecosystemBalance.js:32-34 | inserting adds exactly that level: the result is a permutation of the list plus it |
| EcosystemBalance.InsertKeepsSorted | biome-buddy/src/ecosystemBalance.js:32-34 | inserting into a priority-sorted list keeps it sorted |
| EcosystemBalance.SortByPriority | biome-buddy/src/ecosystemBalance.js:32-34 | the sorted level list is a permutation of the input, ordered by configured priority |
| EcosystemBalance.SortKeepsSortedInput | biome-buddy/src/ecosystemBalance.js:32-34 | an already sorted list comes back unchanged |
| EcosystemBalance.InsertWithPriority | biome-buddy/src/ecosystemBalance.js:32-34 | inserting into an ordered list puts the new level after every level of its own priority and leaves the order of every other priority as it was |
| EcosystemBalance.SortIsStable | biome-buddy/src/ecosystemBalance.js:32-34 | the sort is stable: for every priority, the levels with that priority come out in their input order |
| EcosystemBalance.InsertAfterAll | biome-buddy/src/ecosystemBalance.js:32-34 | a level of the highest priority so far goes at the end |
| EcosystemBalance.SpeciesListScore | biome-buddy/src/ecosystemBalance.js:36-43 | a species list scores 0 when every population is 0, and is non-negative for non-negative records |
| EcosystemBalance.SingleRecordScore | biome-buddy/src/ecosystemBalance.js:16-20 | one record scores population times the mean of biomass and energy per individual |
| EcosystemBalance.NormalizedLevel | biome-buddy/src/ecosystemBalance.js:44-71 | at most 1; non-negative for a non-negative score; 0 for an empty level under positive ideals |
| EcosystemBalance.VariantsAgree | biome-buddy/src/ecosystemBalance.js:53-56 | this file's normalisation matches EcosystemHealth.jsx on every level except two cases, both with the level above scoring 0. If this level scores 0 too, EcosystemHealth.jsx gives NaN. If the ideal ratio is negative, it gives 1. In both cases this file applies the 0.1 penalty. When only the level above scores 0 and the ratio is positive, both multiply by 0.1 |
| EcosystemBalance.NormalizedValues | biome-buddy/src/ecosystemBalance.js:44-71 | one value per sorted level, each against the next level in priority order |
| EcosystemBalance.Calculate | biome-buddy/src/ecosystemBalance.js:31-79 | an error (the TypeError of reading a missing entry's priority) exactly when some level is missing from the configuration, keys inherited from `Object.prototype` aside; otherwise NaN exactly when there are no levels |
| EcosystemBalance.WithIdeals | biome-buddy/src/ecosystemConfig.js:6-28 | filling in absent ideals keeps every level, its priority and every ideal that is present, and no ideal becomes 0 |
| EcosystemBalance.CalculateAsWritten | biome-buddy/src/ecosystemBalance.js:31-79 | against a configuration whose ideals may be absent: an error exactly when some level is unconfigured; NaN when some input level has no ideal; otherwise the same result as with all ideals present |
| EcosystemBalance.ShippedConfigGivesNaN | biome-buddy/src/ecosystemConfig.js:6-28 | with the shipped configuration every input of configured levels, empty or not, gives NaN |
| EcosystemBalance.ProducerOnlyAsShipped | biome-buddy/src/ecosystemBalanceTest.test.jsx:66-79 | with the shipped configuration the lone-producer test input gives NaN |
| EcosystemBalance.NormalizedLevelInUnit | biome-buddy/src/ecosystemBalance.js:44-71 | with a non-negative score and positive ideal the value is in [0, 1] |
| EcosystemBalance.ValuesInUnit | biome-buddy/src/ecosystemBalance.js:44-71 | every level's value is in [0, 1] for non-negative records and positive ideals |
| EcosystemBalance.PermutationKeepsNonNegative | biome-buddy/src/ecosystemBalance.js:32-34 | sorting cannot introduce a negative record |
| EcosystemBalance.HealthInUnitInterval | biome-buddy/src/ecosystemBalance.js:31-79 | with positive ideals, configured levels and non-negative records, the result is not an error and any number it gives is in [0, 1] |
| EcosystemBalance.EmptyEcosystemScoresZero | biome-buddy/src/ecosystemBalance.js:31-79 | configured levels that are all empty or absent give health exactly 0 |
| EcosystemBalance.ExampleLevelsSorted | biome-buddy/src/ecosystemBalance.js:32-34 | producer, herbivore, primary and secondary carnivore are already in priority order |
| EcosystemBalance.ExampleLevelValues | biome-buddy/src/ecosystemBalance.js:44-71 | the four example levels normalise against each other in that order |
| EcosystemBalance.ExampleCalculation | biome-buddy/src/ecosystemBalance.js:31-79 | the example ecosystem's health is the mean of those four values |
| EcosystemBalance.SumOfFour | biome-buddy/src/ecosystemBalance.js:77 | the reduce over four values is their sum |
| EcosystemBalance.MeanOfFour | biome-buddy/src/ecosystemBalance.js:77 | the mean over four values is their sum over 4 |
| EcosystemBalance.ProducerOnlyExample | biome-buddy/src/ecosystemBalanceTest.test.jsx:66-79 | with ideal ratios 1000/400/150/80 (the configuration's biomass values), a lone producer of 100 with empty levels above gives 0.025 |
| EcosystemBalance.ApexExtinctValues | biome-buddy/src/ecosystemBalance.js:44-71 | with ideal ratios 1000/400/150/80 (the configuration's biomass values), scores 1000/400/150/0 normalise to 1, 1, 0.1 and 0 |
| EcosystemBalance.ApexExtinctExample | biome-buddy/src/ecosystemBalance.js:31-79 | with ideal ratios 1000/400/150/80 (the configuration's biomass values), three stocked levels under an empty apex give 0.525 |
| Disasters.Keys | biome-buddy/src/data/disasters.js:9-114 | `Object.keys(disasters)` lists the catalogue keys in definition order |
| Disasters.CatalogueShape | biome-buddy/src/data/disasters.js:9-114 | the five disasters in definition order, each with two actions, every action carrying a population delta and a known target species |
| Disasters.PickIndex | biome-buddy/src/systems/DisasterSystem.jsx:73-74 | `Math.floor(draw * keys.length)` for a draw in [0, 1) is a valid index, the one whose interval holds the draw |
| Disasters.PickExamples | biome-buddy/src/systems/DisasterSystem.jsx:73-75 | draws 0, 0.5 and 0.7 pick wildfire, flood and drought |
| DisasterSystem.MaxZero | biome-buddy/src/systems/DisasterSystem.jsx:16 | `Math.max(0, n)` is n or 0, whichever is larger |
| DisasterSystem.NextSize | biome-buddy/src/systems/DisasterSystem.jsx:16 | the new size is never negative, is the rounding of `current + delta` when positive, and is 0 exactly when that sum is below one half |
| DisasterSystem.NextSizeOfWhole | biome-buddy/src/systems/DisasterSystem.jsx:25 | for whole sizes and deltas the new size is `max(0, current + delta)` |
| DisasterSystem.FindByName | biome-buddy/src/systems/DisasterSystem.jsx:10 | `find` returns the first species with the name, or nothing exactly when none has it |
| DisasterSystem.ApplyActionToSpecies | biome-buddy/src/systems/DisasterSystem.jsx:7-31 | applied exactly when there is an action, a species list, a species of that name, and a legacy population or a registry entry; nothing changes otherwise; only the first matching species or the registry entry of its name changes, the legacy record winning, and it is set to the clamped rounded size |
| DisasterSystem.ApplyPlayerDisasterAction | biome-buddy/src/systems/DisasterSystem.jsx:50-52 | the method reports the same outcome as the free function |
| DisasterSystem.RegistryActionOnWhole | biome-buddy/src/systems/DisasterSystem.jsx:22-28 | a registry-only species of whole size gets `max(0, size + delta)` |
| DisasterSystem.ActionExamples | biome-buddy/tests/Disaster.test.jsx:26-61 | 200 rabbits plus 45 become 245, and 1000 grass minus 2000 clamp to 0 |
| DisasterSystem.Popup | biome-buddy/src/systems/DisasterSystem.jsx:57-79 | a shown disaster is resolved on the next call: the pending action is applied and both fields are cleared; with none shown a new one appears exactly when the roll is below 0.4, picked from the catalogue; nothing else in the context changes |
| DisasterSystem.PopupPicksCatalogue | biome-buddy/src/systems/DisasterSystem.jsx:72-77 | a popup disaster is always one of the catalogue's entries |
| DisasterSystem.PopupCycle | biome-buddy/src/systems/DisasterSystem.jsx:57-79 | show, then choose an action, then resolve: the action's effect lands and the popup is empty again |
| DisasterSystem.ImpactFraction | biome-buddy/src/systems/DisasterSystem.jsx:98-100 | `impacts[level] \|\| 0.05` lies in (0, 0.5]; an unknown disaster or level falls back to 0.05 |
| DisasterSystem.ImpactTableCoversCatalogue | biome-buddy/src/systems/DisasterSystem.jsx:38-44 | every catalogue disaster has a row in the impact table, and producers lose a larger fraction than herbivores in every one except the invasive species |
| DisasterSystem.ImpactSize | biome-buddy/src/systems/DisasterSystem.jsx:105-106 | `max(0, size - round(size * f))` is never negative and never above a non-negative size |
| DisasterSystem.ImpactOne | biome-buddy/src/systems/DisasterSystem.jsx:102-107 | one id's impact changes exactly that population's size, and a missing id changes nothing |
| DisasterSystem.ImpactIds | biome-buddy/src/systems/DisasterSystem.jsx:102-107 | an impact loop keeps the keys, leaves unlisted populations alone, only ever shrinks sizes, and leaves listed sizes non-negative |
| DisasterSystem.ImpactIdsPointwise | biome-buddy/src/systems/DisasterSystem.jsx:102-107 | with distinct ids, each listed population gets exactly one impact |
| DisasterSystem.ImpactLevels | biome-buddy/src/systems/DisasterSystem.jsx:99-108 | over all levels: keys kept, unlisted populations untouched, sizes only shrink, listed sizes non-negative |
| DisasterSystem.Legacy | biome-buddy/src/systems/DisasterSystem.jsx:81-127 | the year length is set on first use; without a strike nothing changes; a strike records the round and shrinks only listed populations; nothing else in the context changes |
| DisasterSystem.Apply | biome-buddy/src/systems/DisasterSystem.jsx:54-129 | popup mode runs the popup flow and keeps the system's memory; otherwise the yearly flow runs; round and levels never change |
| DisasterSystem.ApplyKeepsNonNegative | biome-buddy/src/systems/DisasterSystem.jsx:99-108 | in yearly mode non-negative sizes stay non-negative |
| DisasterSystem.NoSecondStrikeWithinYear | biome-buddy/src/systems/DisasterSystem.jsx:86-89 | after a strike, no later round within the same year can strike again |
| DisasterSystem.MockIsDue | biome-buddy/tests/DisasterSystem.test.jsx:5-25 | the test fixture is due for a disaster at round 4, so it strikes exactly when the roll is below 0.7 |
| DisasterSystem.HighRollExample | biome-buddy/tests/DisasterSystem.test.jsx:37-53 | a roll of 0.9 leaves the populations at 100, 50 and 20 |
| DisasterSystem.SingleIdImpact | biome-buddy/src/systems/DisasterSystem.jsx:102-107 | a one-id level shrinks exactly that population |
| DisasterSystem.LevelStep | biome-buddy/src/systems/DisasterSystem.jsx:99-108 | the impact of a list of levels is the first level's impact followed by the rest |
| DisasterSystem.ThreeLevelImpact | biome-buddy/src/systems/DisasterSystem.jsx:99-108 | three one-species levels each shrink their own population by their level's fraction |
| DisasterSystem.MockImpact | biome-buddy/tests/DisasterSystem.test.jsx:5-25 | on the fixture the three populations shrink by the producer, herbivore and primary carnivore fractions |
| DisasterSystem.WildfireExample | biome-buddy/tests/DisasterSystem.test.jsx:55-85 | a wildfire takes the fixture from 100/50/20 to 50/40/18 and records round 4 |
| DisasterSystem.WildfireFractions | biome-buddy/src/systems/DisasterSystem.jsx:39 | the wildfire row: 0.5, 0.2 and 0.1 for the three lower levels |
| SpeciesLib.SubclassDefaults | biome-buddy/src/lib/species.js:62-88 | higher levels default to slower growth, the base class matches producers, and only subclasses name a level |
| SpeciesLib.Create | biome-buddy/src/lib/species.js:18-27 | the new species takes the counter's value as id and the counter moves on; numeric arguments are coerced with the constructor's defaults; mortality starts at 0 |
| SpeciesLib.CreateMany | biome-buddy/src/lib/species.js:8-27 | constructing in sequence hands out consecutive ids |
| SpeciesLib.IdsIncreasing | biome-buddy/src/lib/species.js:23 | ids in one run are consecutive, strictly increasing and below the counter's next value |
| SpeciesLib.IdsUniqueAcrossRuns | biome-buddy/src/lib/species.js:8 | a later run never reuses an earlier run's id |
| SpeciesLib.TotalsOfNew | biome-buddy/src/lib/species.js:29-35 | a new species' totals are its per-individual values times its coerced population; a non-numeric population gives zero totals |
| SpeciesLib.TotalsFollowGrowth | biome-buddy/src/lib/species.js:29-35 | a growth update scales both totals by the same factor as the population |
| SpeciesLib.SetGrowthRate | biome-buddy/src/lib/species.js:57-59 | the getter then reads `Number(r) \|\| 0`, and nothing else changes |
| SpeciesLib.SetGrowthRateRoundTrip | biome-buddy/src/lib/species.js:53-59 | the getter returns the rate just set, and a second set overrides the first |
| SpeciesLib.ToJson | biome-buddy/src/lib/species.js:37-46 | the serialized population and growth rate are what the getters return; the other fields are copied |
| SpeciesLib.ToJsonOfNew | biome-buddy/src/lib/species.js:18-46 | a new species serializes to its coerced arguments and fresh id |
| SpeciesLib.ToJsonTracksPopulation | biome-buddy/src/lib/species.js:37-46 | the serialized population follows later growth and mortality updates |
| SpeciesLib.ProducerExample | biome-buddy/src/lib/species.js:62-67 | a producer built with no population gets id 1, size 0, growth 0.1 and level "producer" |
| Listeners.Subscribe | biome-buddy/src/disasterBus.js:4 | the listener is appended after the existing ones |
| Listeners.Remove | biome-buddy/src/disasterBus.js:5-7 | every copy of the listener goes and every other listener keeps its count; a listener that was never subscribed changes nothing |
| Listeners.RemoveConcat | biome-buddy/src/disasterBus.js:5-7 | removal distributes over concatenation, so survivors keep their order |
| Listeners.SubscribeThenUnsubscribe | biome-buddy/src/disasterBus.js:3-8 | unsubscribing a newly subscribed listener restores the list exactly |
| Listeners.RemoveKeepsOthers | biome-buddy/src/disasterBus.js:5-7 | other listeners stay subscribed |
| LogStore.MakeEntry | biome-buddy/src/logStore.js:7-14 | season defaults to "Unknown" and the timestamp to now; an empty name is not stored; the message falls back to the name and then to "" |
| LogStore.MessageEmptyIff | biome-buddy/src/logStore.js:11 | the message is empty exactly when neither a message nor a name was given |
| LogStore.AddEntry | biome-buddy/src/logStore.js:7-19 | the new entry goes in front of the old ones, which follow unchanged, and is returned |
| LogStore.GetEntries | biome-buddy/src/logStore.js:21-23 | the snapshot lists the entries in order |
| LogStore.Clear | biome-buddy/src/logStore.js:25-28 | no entries remain and subscribers stay |
| LogStore.Subscribe | biome-buddy/src/logStore.js:30-34 | the listener is appended after the earlier ones and handed the current snapshot; entries are untouched |
| LogStore.Unsubscribe | biome-buddy/src/logStore.js:34-36 | the listener leaves, the others stay, and the entries are untouched |
| LogStore.SnapshotIsACopy | biome-buddy/src/logStore.js:16-23 | after an addition the entries are the new entry followed by the earlier snapshot |
| LogStore.SubscribeUnsubscribe | biome-buddy/src/logStore.js:30-37 | subscribing and then unsubscribing a new listener restores the store |
| LogStore.AddAll | biome-buddy/src/logStore.js:7-19 | adding n entries grows the log by n and keeps the subscribers |
| LogStore.AddAllNewestFirst | biome-buddy/src/logStore.js:16 | entries added in a run appear in reverse order ahead of the older ones |
| LogStore.TwoEntriesExample | biome-buddy/src/logStore.js:7-19 | two additions: the later one is listed first, built with its defaults |
| DisasterBus.Normalize | biome-buddy/src/disasterBus.js:31-45 | a key gives its name and its text, or the key itself when unknown; an object is copied and gains the text only when its message is empty and its name is known; anything else becomes the "unknown" payload |
| DisasterBus.TextsNonEmpty | biome-buddy/src/disasterBus.js:22-28 | every dictionary key and text is non-empty |
| DisasterBus.NormalizeIdempotent | biome-buddy/src/disasterBus.js:31-45 | normalizing an emitted payload again changes nothing |
| DisasterBus.KeyAndNameAgree | biome-buddy/src/disasterBus.js:33-39 | a known key and an object with only that name emit the same payload |
| DisasterBus.OwnMessageKept | biome-buddy/src/disasterBus.js:37 | an object's own non-empty message is never replaced |
| DisasterBus.NormalizeExamples | biome-buddy/src/disasterBus.js:31-45 | "forest_fire" shows its text, an unknown key shows itself, and a non-object shows as "unknown" |
| DisasterBus.Subscribe | biome-buddy/src/disasterBus.js:3-4 | the bus's list gains the listener |
| DisasterBus.Unsubscribe | biome-buddy/src/disasterBus.js:5-7 | the closure removes exactly that listener and keeps every other |
| Engine.NewEngine | biome-buddy/src/GameEngine.jsx:8-17 | a fresh engine has a fresh context, no choice and fresh disaster memory |
| Engine.ApplySystem | biome-buddy/src/GameEngine.jsx:20-22 | only the season and player systems can throw; the season system throws for no trophic levels; the player system succeeds exactly for a valid choice and then clears it |
| Engine.ApplyAll | biome-buddy/src/GameEngine.jsx:20-22 | the loop keeps the round and levels, and a throw comes from a season or player system in the list |
| Engine.ApplyAllConcat | biome-buddy/src/GameEngine.jsx:20-22 | running two lists back to back is running their concatenation; a throw stops the rest |
| Engine.RunRound | biome-buddy/src/GameEngine.jsx:19-26 | a completed round advances the counter by one, a throw leaves it; season length and levels never change |
| Engine.RoundIsSequence | biome-buddy/tests/GameEngine.test.jsx:26-42 | the round is season, player action, food chain and disaster in that order, then the round increase |
| Engine.CompletedRoundConsumesChoice | biome-buddy/src/GameEngine.jsx:19-26 | a completed round needed a valid choice and used it up, so the next round throws |
| Engine.ApplySystemAsWritten | biome-buddy/src/GameEngine.jsx:20-22 | with the player step as written, each system throws what the corrected one throws; where the corrected player step succeeds, it throws the TypeError and changes nothing |
| Engine.ApplyAllAsWritten | biome-buddy/src/GameEngine.jsx:20-22 | as written, the loop keeps the round and levels, and any list holding the player step throws |
| Engine.RunRoundAsWritten | biome-buddy/src/GameEngine.jsx:19-26 | as written, a round that throws leaves the counter where it was |
| Engine.AsWrittenRoundNeverCompletes | biome-buddy/src/GameEngine.jsx:19-26 | as written, every round throws and never advances the counter. It throws the corrected round's error when that one throws; otherwise it throws the TypeError right after the season step |
| Engine.NoChoiceStopsAfterSeason | biome-buddy/src/GameEngine.jsx:19-26 | with no choice, the season's effects stay and the round stops with the no-choice error |
| Engine.FreshEngineThrows | biome-buddy/src/GameEngine.jsx:8-26 | a fresh engine's first round throws at once and changes nothing, because a fresh context has no trophic levels |

## Left out

- Floating point: sizes, rates and scores are exact reals. IEEE rounding, and infinities other
  than the one capped by `Math.min` in EcosystemHealth.jsx, are not modelled. A NaN is a separate
  `NotANumber` value.
- `Number(s)` covers the empty string and an optional sign followed by decimal digits. Every other
  string is NaN, so its lookup misses. Decimal points, exponents, hex and whitespace are not
  modelled.
- Object key order is taken as the insertion order of the entry lists. JavaScript's rule that
  integer-like keys come first is not modelled.
- Randomness and the clock are parameters. They are the `Math.random()` draws in
  DisasterSystem.jsx and the `Date.now()` default in logStore.js.
- The random part of a log entry's id (logStore.js:13) is not modelled, and `Entry` has no id.
- Calling listeners is not modelled: `emit` in logStore.js and disasterBus.js, and the snapshot
  pushed to a new subscriber. The listener lists, and what each listener would be handed, are.
- DisasterSystem.Legacy: the health recomputation and the game-log entry after a strike
  (DisasterSystem.jsx:110-124) are left out. `context.calculateEcosystemHealth` does not exist on
  GameContext, so the source only ever logs 0 there. The imported GameLogSystem module is not
  part of this model.
- DisasterSystem.ApplyActionToSpecies: a legacy species whose `_population` is also the registry
  entry, so one object is reachable two ways, is treated as two separate records.
- DisasterSystem.Popup: the popup passes the context's species list, which `Context` always
  holds. A missing `context.species` is not modelled here; see GameContexts.Context below.
  DisasterSystem.ApplyActionToSpecies alone takes the list as optional, for a value that is not
  an array.
- GameContexts.Context: GameContext.jsx:5-13 creates only `roundNumber`, `populations`,
  `trophicLevel` and `numRoundsInSeason`. `Context` adds the fields the systems read:
  `trophicLevels`, `species`, `enablePopupDisasters`, `currentDisaster` and
  `pendingDisasterAction`. They stand for what the rest of the game sets on the context, which is
  not part of this model. Two differences follow for a context straight from the constructor:
  - FoodChainSystem.apply reads `this.trophicLevels.length` of undefined and throws a TypeError
    (FoodChainSystem.jsx:23). The model's empty `trophicLevels` makes it a no-op.
  - Resolving a pending popup action calls `context.species.values()` on undefined and throws
    (DisasterSystem.jsx:62). The model resolves the action against the species list.
  The season system's throw for an absent list is modelled as `MissingProducerLevel`.
- Engine.ApplySystem: the engine composes the corrected player step (PlayerActionSystem.Apply),
  not the as-written one that throws on every valid choice. Engine.ApplySystemAsWritten and
  Engine.AsWrittenRoundNeverCompletes model the source as written.
- Engine.RunRound: a round completes here when the season step succeeds and the choice is
  valid. As written no round of the source completes (Engine.AsWrittenRoundNeverCompletes).
- Engine.CompletedRoundConsumesChoice: describes a completed round of the corrected engine. The
  source as written never reaches one; its round throws at the player step instead.
- Keys inherited from `Object.prototype` (such as "constructor") are not entries of
  `DISASTER_TEXTS`, of the impact table or of `IDEAL_RATIOS` here. A level named "constructor"
  or "toString" reads an undefined priority and ideal in the source, so its balance is NaN; the
  model returns the unconfigured-level error for it.
- EcosystemBalance.Calculate: its error-exactly-when-unconfigured clause does not cover those
  inherited keys, for the reason above.
- SpeciesLib.PopulationSize and SpeciesLib.GrowthRate: the getters' branch for a missing
  `_population` (species.js:50 and 54) cannot be reached from the constructor, so it is not
  modelled.
- A species entry without `biomass` or `energy` (NaN in the health score) is not modelled. Both
  are required fields.
- The game-configuration table ecosystemConfig.js is a parameter (`Config`). Its current content
  has no `idealRatio` fields, so every ideal is undefined and, as shipped,
  `calculateEcosystemBalance` gives NaN for every input (EcosystemBalance.ShippedConfigGivesNaN).
  The examples use the biomass column 1000/400/150/80 as the ideals. Its `biomass`, `energy` and
  `cap` fields are not read by the balance calculation and are not modelled.
- React components, UI state, GameLogSystem.jsx and the other screens are not part of this model.

## Findings

| source | as written | input that shows it | evidently intended | confidence | as-written member | corrected member |
|---|---|---|---|---|---|---|
| biome-buddy/src/systems/PlayerActionSystem.jsx:15 | `population.applyGrowthRateMultiplier(2)` calls a method Population does not define, so every valid choice throws a TypeError | a fresh context, with species 1 chosen | grow the chosen population with the growth multiplier 2 (`updatePopulationByGrowthRate(2)`), then clear the choice | high; not executed | PlayerActionSystem.ApplyAsWritten, PlayerActionSystem.AsWrittenThrowsOnValidChoice, Engine.ApplySystemAsWritten, Engine.AsWrittenRoundNeverCompletes | PlayerActionSystem.Apply, PlayerActionSystem.ChooseThenApply, Engine.ApplySystem, Engine.RunRound |
| biome-buddy/src/ecosystemConfig.js:6-28 | no entry of `IDEAL_RATIOS` has an `idealRatio`, so `IDEAL_RATIOS[level].idealRatio` (ecosystemBalance.js:42) is undefined, every `score / ideal` is NaN, and the health is NaN for every input | the lone producer of ecosystemBalanceTest.test.jsx:66-79 | each entry carries its ideal ratio; the biomass column 1000/400/150/80 fits | medium; not executed | EcosystemBalance.CalculateAsWritten, EcosystemBalance.ShippedConfigGivesNaN, EcosystemBalance.ProducerOnlyAsShipped | EcosystemBalance.Calculate, EcosystemBalance.HealthInUnitInterval, EcosystemBalance.ProducerOnlyExample |
