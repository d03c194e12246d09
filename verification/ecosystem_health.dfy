/**
 * The context-based ecosystem health score (EcosystemHealth.jsx): every
 * trophic level is scored from its species, compared with the level above,
 * capped at 1, and the health is the mean of the level values.
 */
module EcosystemHealth {
  import opened Wrappers
  import opened Populations
  import opened Trophic
  import opened GameContexts
  import opened HealthHelpers
  import FoodChainSystem

  /** The default weights of `calculateSpeciesScore`. */
  const BiomassWeight: real := 0.5
  const EnergyWeight: real := 0.5

  /** `calculateSpeciesScore(population, biomass, energy, wB, wE)`: linear in the population. */
  function SpeciesScore(population: real, biomass: real, energy: real, wB: real, wE: real): (s: real)
    ensures s == population * (wB * biomass + wE * energy)
    ensures population >= 0.0 && biomass >= 0.0 && energy >= 0.0 && wB >= 0.0 && wE >= 0.0 ==> s >= 0.0
  {
    var biomassScore := population * biomass;
    var energyScore := population * energy;
    var w := wB * biomass + wE * energy;
    assert wB * biomassScore + wE * energyScore == population * w;
    assert population >= 0.0 && biomass >= 0.0 && energy >= 0.0 && wB >= 0.0 && wE >= 0.0 ==> population * w >= 0.0 by {
      if population >= 0.0 && biomass >= 0.0 && energy >= 0.0 && wB >= 0.0 && wE >= 0.0 {
        assert wB * biomass >= 0.0 && wE * energy >= 0.0;
        assert w >= 0.0;
      }
    }
    wB * biomassScore + wE * energyScore
  }

  /** The size a species key contributes: its population's size, or 0 when `Number(key)` names none. */
  function EntrySize(key: string, pops: Registry): real {
    FoodChainSystem.SizeOf(key, pops)
  }

  /** What one `speciesMap` entry adds to its level's score; an extinct or missing species adds nothing. */
  function EntryScore(e: SpeciesEntry, pops: Registry): real {
    var size := EntrySize(e.key, pops);
    if size == 0.0 then 0.0 else SpeciesScore(size, e.data.biomass, e.data.energy, BiomassWeight, EnergyWeight)
  }

  /** One species' contribution is non-negative for non-negative data, and with positive data 0 only when extinct. */
  lemma EntryScoreFacts(e: SpeciesEntry, pops: Registry)
    requires FoodChainSystem.AllSizesNonNegative(pops)
    requires e.data.biomass >= 0.0 && e.data.energy >= 0.0
    ensures EntryScore(e, pops) >= 0.0
    ensures e.data.biomass + e.data.energy > 0.0 ==> (EntryScore(e, pops) == 0.0 <==> EntrySize(e.key, pops) == 0.0)
  {
    var size := EntrySize(e.key, pops);
    assert size >= 0.0;
    if size != 0.0 && e.data.biomass + e.data.energy > 0.0 {
      var w := BiomassWeight * e.data.biomass + EnergyWeight * e.data.energy;
      assert w > 0.0;
      assert EntryScore(e, pops) == size * w;
      assert size * w > 0.0;
    }
  }

  predicate NonNegativeData(entries: seq<SpeciesEntry>) {
    forall i :: 0 <= i < |entries| ==> entries[i].data.biomass >= 0.0 && entries[i].data.energy >= 0.0
  }

  /** Every species has non-negative biomass and energy, not both 0. */
  predicate PositiveData(entries: seq<SpeciesEntry>) {
    forall i :: 0 <= i < |entries| ==>
      entries[i].data.biomass >= 0.0 && entries[i].data.energy >= 0.0 && entries[i].data.biomass + entries[i].data.energy > 0.0
  }

  /** True when every species of the list has size 0 or no population. */
  predicate AllExtinct(entries: seq<SpeciesEntry>, pops: Registry) {
    forall i :: 0 <= i < |entries| ==> EntrySize(entries[i].key, pops) == 0.0
  }

  /**
   * A level's `totalScore`, summed over `Object.entries(speciesMap)` in
   * order: 0 when every species is extinct, non-negative for non-negative
   * data, and with positive data 0 exactly when every species is extinct.
   */
  function LevelScore(entries: seq<SpeciesEntry>, pops: Registry): (s: real)
    ensures AllExtinct(entries, pops) ==> s == 0.0
    ensures FoodChainSystem.AllSizesNonNegative(pops) && NonNegativeData(entries) ==> s >= 0.0
    ensures FoodChainSystem.AllSizesNonNegative(pops) && PositiveData(entries) ==> (s == 0.0 <==> AllExtinct(entries, pops))
  {
    if |entries| == 0 then 0.0
    else
      var init := entries[..|entries| - 1];
      var last := entries[|entries| - 1];
      assert forall i :: 0 <= i < |init| ==> init[i] == entries[i];
      assert FoodChainSystem.AllSizesNonNegative(pops) && NonNegativeData(entries) ==> EntryScore(last, pops) >= 0.0 by {
        if FoodChainSystem.AllSizesNonNegative(pops) && NonNegativeData(entries) {
          EntryScoreFacts(last, pops);
        }
      }
      assert FoodChainSystem.AllSizesNonNegative(pops) && PositiveData(entries) ==>
        (EntryScore(last, pops) == 0.0 <==> EntrySize(last.key, pops) == 0.0) by {
        if FoodChainSystem.AllSizesNonNegative(pops) && PositiveData(entries) {
          EntryScoreFacts(last, pops);
        }
      }
      LevelScore(init, pops) + EntryScore(last, pops)
  }

  /** A level as the scoring sees it: its score and its ideal ratio read with `|| 1`. */
  datatype LevelSummary = LevelSummary(score: real, ideal: real)

  function Summarize(level: TrophicLevel, pops: Registry): (s: LevelSummary)
    ensures s.score == LevelScore(level.speciesMap, pops)
    ensures s.ideal == IdealOr1(level) && s.ideal != 0.0
    ensures s.ideal == (if level.idealRatio == 0.0 then 1.0 else level.idealRatio)
  {
    LevelSummary(LevelScore(level.speciesMap, pops), IdealOr1(level))
  }

  /** `trophicLevels.map(...)` building the level summaries. */
  function Summaries(levels: seq<TrophicLevel>, pops: Registry): (s: seq<LevelSummary>)
    ensures |s| == |levels|
    ensures forall i :: 0 <= i < |levels| ==> s[i] == Summarize(levels[i], pops)
  {
    seq(|levels|, i requires 0 <= i < |levels| => Summarize(levels[i], pops))
  }

  /**
   * One level's normalised value, `curr` against the level above it
   * (`None` for the top level), following the IEEE-754 arithmetic of the
   * code: above a level scoring 0, a non-zero score gives an infinite
   * ratio, and 0/0 gives NaN, which survives `max` and `min`.
   */
  function NormalizedScore(curr: LevelSummary, next: Option<LevelSummary>): (h: Health)
    requires curr.ideal != 0.0 && (next.Some? ==> next.value.ideal != 0.0)
    ensures h.NotANumber? <==> next.Some? && next.value.score == 0.0 && curr.score == 0.0
    ensures h.Health? ==> h.value <= 1.0
    ensures h.Health? && curr.score / curr.ideal >= 0.0 ==> h.value >= 0.0
    ensures next.None? ==> h.value == Min(1.0, curr.score / curr.ideal)
  {
    var currScore := curr.score / curr.ideal;
    match next
    case None => Health(Min(1.0, currScore))
    case Some(n) =>
      var idealRatio := curr.ideal / n.ideal;
      if n.score == 0.0 then
        if curr.score == 0.0 then NotANumber
        // the deviation is +Infinity: no tolerance, penalty max(0.1, -Infinity) = 0.1
        else if idealRatio > 0.0 then Health(Min(1.0, currScore * PenaltyFloor))
        // the deviation is -Infinity, below the tolerance
        else Health(1.0)
      else
        var deviation := Abs(curr.score / n.score - idealRatio) / idealRatio;
        if deviation < DefaultTolerance then Health(1.0)
        else
          var penalty := Max(PenaltyFloor, 1.0 - deviation);
          assert currScore >= 0.0 ==> currScore * penalty >= 0.0;
          Health(Min(1.0, currScore * penalty))
  }

  /**
   * With the level above scoring non-zero, the inline penalty is the
   * helpers' composition: 1 inside the tolerance of `calculateRatioDeviation`,
   * otherwise `score/ideal` scaled by `deviationToScore`, capped at 1.
   */
  lemma NormalizedMatchesHelpers(curr: LevelSummary, next: LevelSummary)
    requires curr.ideal != 0.0 && next.ideal != 0.0 && next.score != 0.0
    ensures var d := RatioDeviation(curr.score, next.score, curr.ideal, next.ideal);
      NormalizedScore(curr, Some(next)) ==
        Health(if d < DefaultTolerance then 1.0
               else Min(1.0, curr.score / curr.ideal * DeviationToScore(d, DefaultTolerance)))
  {
    var ideal := curr.ideal / next.ideal;
    var d := RatioDeviation(curr.score, next.score, curr.ideal, next.ideal);
    assert d == Abs(curr.score / next.score - ideal) / ideal;
    if d >= DefaultTolerance {
      assert DeviationToScore(d, DefaultTolerance) == Max(PenaltyFloor, 1.0 - d);
    }
  }

  /** A level scoring at least ten times its positive ideal, with a non-empty level above, gets the full value 1. */
  lemma AmpleLevelScoresOne(curr: LevelSummary, next: Option<LevelSummary>)
    requires curr.ideal > 0.0 && curr.score >= 10.0 * curr.ideal
    requires next.Some? ==> next.value.ideal > 0.0
    ensures NormalizedScore(curr, next) == Health(1.0)
  {
    var currScore := curr.score / curr.ideal;
    assert currScore >= 10.0 by {
      assert curr.score / curr.ideal >= (10.0 * curr.ideal) / curr.ideal;
    }
    assert currScore * PenaltyFloor >= 1.0;
    if next.Some? && next.value.score != 0.0 {
      var idealRatio := curr.ideal / next.value.ideal;
      var deviation := Abs(curr.score / next.value.score - idealRatio) / idealRatio;
      RealMulLe(PenaltyFloor, Max(PenaltyFloor, 1.0 - deviation), currScore);
    }
  }

  function NextOf(s: seq<LevelSummary>, i: nat): Option<LevelSummary>
    requires i < |s|
  {
    if i + 1 < |s| then Some(s[i + 1]) else None
  }

  predicate IdealsNonZero(s: seq<LevelSummary>) {
    forall i :: 0 <= i < |s| ==> s[i].ideal != 0.0
  }

  /** `levelScores.map(...)`: each level's value against the level above it. */
  function NormalizedScores(s: seq<LevelSummary>): (hs: seq<Health>)
    requires IdealsNonZero(s)
    ensures |hs| == |s|
    ensures forall i :: 0 <= i < |s| ==> hs[i] == NormalizedScore(s[i], NextOf(s, i))
  {
    seq(|s|, i requires 0 <= i < |s| => NormalizedScore(s[i], NextOf(s, i)))
  }

  predicate SomeNaN(hs: seq<Health>) {
    exists i :: 0 <= i < |hs| && hs[i].NotANumber?
  }

  /** The numeric values of a NaN-free list. */
  function Values(hs: seq<Health>): (xs: seq<real>)
    requires !SomeNaN(hs)
    ensures |xs| == |hs|
    ensures forall i :: 0 <= i < |hs| ==> xs[i] == hs[i].value
  {
    seq(|hs|, i requires 0 <= i < |hs| => hs[i].value)
  }

  /**
   * `reduce((a, b) => a + b, 0) / length`: NaN when the list is empty or
   * holds a NaN (it survives the sum), otherwise the arithmetic mean.
   */
  function MeanOfScores(hs: seq<Health>): (h: Health)
    ensures h.NotANumber? <==> |hs| == 0 || SomeNaN(hs)
    ensures h.Health? && (forall i :: 0 <= i < |hs| ==> hs[i].Health? && 0.0 <= hs[i].value <= 1.0) ==> 0.0 <= h.value <= 1.0
    ensures h.Health? && (forall i :: 0 <= i < |hs| ==> hs[i] == Health(1.0)) ==> h.value == 1.0
  {
    if |hs| == 0 || SomeNaN(hs) then NotANumber
    else
      var xs := Values(hs);
      assert (forall i :: 0 <= i < |hs| ==> hs[i].Health? && 0.0 <= hs[i].value <= 1.0) ==> AllInUnit(xs) by {
        if forall i :: 0 <= i < |hs| ==> hs[i].Health? && 0.0 <= hs[i].value <= 1.0 {
          forall i | 0 <= i < |xs| ensures 0.0 <= xs[i] <= 1.0 {
            assert xs[i] == hs[i].value;
          }
        }
      }
      assert (forall i :: 0 <= i < |hs| ==> hs[i] == Health(1.0)) ==> Mean(xs) == Health(1.0) by {
        if forall i :: 0 <= i < |hs| ==> hs[i] == Health(1.0) {
          forall i | 0 <= i < |xs| ensures xs[i] == 1.0 {
            assert xs[i] == hs[i].value;
          }
          SumOfOnes(xs);
          DivSelf(Sum(xs), |xs| as real);
          assert Mean(xs) == Health(Sum(xs) / |xs| as real);
        }
      }
      Mean(xs)
  }

  lemma DivSelf(x: real, n: real)
    requires n > 0.0 && x == n
    ensures x / n == 1.0
  {}

  lemma {:induction false} SumOfOnes(xs: seq<real>)
    requires forall i :: 0 <= i < |xs| ==> xs[i] == 1.0
    ensures Sum(xs) == |xs| as real
  {
    if |xs| > 0 {
      var init := xs[..|xs| - 1];
      assert forall i :: 0 <= i < |init| ==> init[i] == xs[i];
      SumOfOnes(init);
    }
  }

  /** True when two adjacent levels both score 0, which makes the health NaN. */
  predicate AdjacentZeroScores(levels: seq<TrophicLevel>, pops: Registry) {
    exists i :: 0 <= i < |levels| - 1 && LevelScore(levels[i].speciesMap, pops) == 0.0 && LevelScore(levels[i + 1].speciesMap, pops) == 0.0
  }

  predicate NonNegativeInputs(levels: seq<TrophicLevel>, pops: Registry) {
    && FoodChainSystem.AllSizesNonNegative(pops)
    && (forall i :: 0 <= i < |levels| ==> NonNegativeData(levels[i].speciesMap) && levels[i].idealRatio >= 0.0)
  }

  /** A level's value is NaN exactly when it and the level above both score 0. */
  lemma NaNAt(s: seq<LevelSummary>, i: nat)
    requires IdealsNonZero(s) && i < |s|
    ensures NormalizedScores(s)[i].NotANumber? <==> i + 1 < |s| && s[i].score == 0.0 && s[i + 1].score == 0.0
  {
  }

  lemma NaNIffAdjacentZeros(levels: seq<TrophicLevel>, pops: Registry)
    ensures SomeNaN(NormalizedScores(Summaries(levels, pops))) <==> AdjacentZeroScores(levels, pops)
  {
    var s := Summaries(levels, pops);
    var hs := NormalizedScores(s);
    if SomeNaN(hs) {
      var i :| 0 <= i < |hs| && hs[i].NotANumber?;
      NaNAt(s, i);
      assert s[i] == Summarize(levels[i], pops) && s[i + 1] == Summarize(levels[i + 1], pops);
    }
    if AdjacentZeroScores(levels, pops) {
      var i :| 0 <= i < |levels| - 1 && LevelScore(levels[i].speciesMap, pops) == 0.0 && LevelScore(levels[i + 1].speciesMap, pops) == 0.0;
      assert s[i] == Summarize(levels[i], pops) && s[i + 1] == Summarize(levels[i + 1], pops);
      NaNAt(s, i);
    }
  }

  lemma LevelValuesInUnit(levels: seq<TrophicLevel>, pops: Registry)
    requires NonNegativeInputs(levels, pops)
    ensures var hs := NormalizedScores(Summaries(levels, pops));
      forall i :: 0 <= i < |hs| && hs[i].Health? ==> 0.0 <= hs[i].value <= 1.0
  {
    var s := Summaries(levels, pops);
    var hs := NormalizedScores(s);
    forall i | 0 <= i < |hs| && hs[i].Health? ensures 0.0 <= hs[i].value <= 1.0 {
      assert s[i].score >= 0.0 && s[i].ideal > 0.0;
      assert s[i].score / s[i].ideal >= 0.0;
    }
  }

  /**
   * `calculateEcosystemBalance(context)`: NaN exactly when there are no
   * levels or two adjacent levels both score 0; with non-negative sizes,
   * biomass, energy and ideals, otherwise a value in [0, 1].
   */
  function Calculate(levels: seq<TrophicLevel>, pops: Registry): (h: Health)
    ensures h.NotANumber? <==> |levels| == 0 || AdjacentZeroScores(levels, pops)
    ensures h.Health? && NonNegativeInputs(levels, pops) ==> 0.0 <= h.value <= 1.0
  {
    var hs := NormalizedScores(Summaries(levels, pops));
    assert SomeNaN(hs) <==> AdjacentZeroScores(levels, pops) by {
      NaNIffAdjacentZeros(levels, pops);
    }
    assert NonNegativeInputs(levels, pops) ==> forall i :: 0 <= i < |hs| ==> hs[i].Health? ==> 0.0 <= hs[i].value <= 1.0 by {
      if NonNegativeInputs(levels, pops) {
        LevelValuesInUnit(levels, pops);
      }
    }
    MeanOfScores(hs)
  }

  /**
   * `calculateEcosystemBalance(context)`: NaN exactly when the context has no
   * trophic levels or two adjacent levels both score 0; otherwise, with
   * non-negative inputs, a value in [0, 1].
   */
  function CalculateForContext(ctx: Context): (h: Health)
    ensures h.NotANumber? <==> |ctx.trophicLevels| == 0 || AdjacentZeroScores(ctx.trophicLevels, ctx.populations)
    ensures h.Health? && NonNegativeInputs(ctx.trophicLevels, ctx.populations) ==> 0.0 <= h.value <= 1.0
  {
    Calculate(ctx.trophicLevels, ctx.populations)
  }

  /** When every level scores at least ten times its positive ideal, the health is exactly 1, whatever the ratios. */
  lemma AmpleScoresGiveFullHealth(levels: seq<TrophicLevel>, pops: Registry)
    requires |levels| > 0
    requires forall i :: 0 <= i < |levels| ==>
      levels[i].idealRatio > 0.0 && LevelScore(levels[i].speciesMap, pops) >= 10.0 * levels[i].idealRatio
    ensures Calculate(levels, pops) == Health(1.0)
  {
    var s := Summaries(levels, pops);
    var hs := NormalizedScores(s);
    forall i | 0 <= i < |hs| ensures hs[i] == Health(1.0) {
      AmpleLevelScoresOne(s[i], NextOf(s, i));
    }
    assert !SomeNaN(hs);
  }

  /** With two or more levels that all score 0 (an empty ecosystem), the health is NaN, not 0. */
  lemma EmptyEcosystemIsNaN(levels: seq<TrophicLevel>, pops: Registry)
    requires |levels| >= 2
    requires forall i :: 0 <= i < |levels| ==> AllExtinct(levels[i].speciesMap, pops)
    ensures Calculate(levels, pops).NotANumber?
  {
    assert LevelScore(levels[0].speciesMap, pops) == 0.0 && LevelScore(levels[1].speciesMap, pops) == 0.0;
  }
}
