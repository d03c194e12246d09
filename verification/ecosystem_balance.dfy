/**
 * The object-of-arrays ecosystem health score (ecosystemBalance.js): the
 * levels are ordered by their configured priority, scored from their
 * species records, compared with the level above, capped at 1 and averaged.
 */
module EcosystemBalance {
  import opened Wrappers
  import opened HealthHelpers
  import EcosystemHealth

  /** One element of a level's species array. */
  datatype SpeciesRecord = SpeciesRecord(population: real, biomassPerIndividual: real, energyPerIndividual: real)

  /** One entry of the `IDEAL_RATIOS` configuration, supplied by the caller. */
  datatype LevelConfig = LevelConfig(priority: int, idealRatio: real)

  type Config = map<string, LevelConfig>

  /** One own property of `speciesByTrophicLevel`: a level name and its (possibly absent) species array. */
  datatype LevelInput = LevelInput(name: string, species: Option<seq<SpeciesRecord>>)

  /** Reading `IDEAL_RATIOS[level].priority` for a level with no configuration throws a TypeError. */
  datatype BalanceError = UnconfiguredLevel

  predicate Configured(levels: seq<LevelInput>, config: Config) {
    forall i :: 0 <= i < |levels| ==> levels[i].name in config
  }

  function Priority(l: LevelInput, config: Config): int
    requires l.name in config
  {
    config[l.name].priority
  }

  predicate SortedByPriority(levels: seq<LevelInput>, config: Config)
    requires Configured(levels, config)
  {
    forall i, j :: 0 <= i < j < |levels| ==> Priority(levels[i], config) <= Priority(levels[j], config)
  }

  /** Where `x` goes: after every element whose priority is not above its own. */
  function InsertionPoint(x: LevelInput, s: seq<LevelInput>, config: Config): (k: nat)
    requires x.name in config && Configured(s, config)
    ensures k <= |s|
    ensures forall i :: 0 <= i < k ==> Priority(s[i], config) <= Priority(x, config)
    ensures k < |s| ==> Priority(x, config) < Priority(s[k], config)
  {
    if |s| == 0 || Priority(x, config) < Priority(s[0], config) then 0
    else
      var k := 1 + InsertionPoint(x, s[1..], config);
      assert forall i :: 1 <= i < |s| ==> s[i] == s[1..][i - 1];
      k
  }

  /**
   * Inserts `x` after every element whose priority is not above its own,
   * so that among equal priorities the earlier input stays first.
   */
  function Insert(x: LevelInput, s: seq<LevelInput>, config: Config): (r: seq<LevelInput>)
    requires x.name in config && Configured(s, config)
    ensures |r| == |s| + 1
    ensures multiset(r) == multiset(s) + multiset{x}
    ensures Configured(r, config)
  {
    var k := InsertionPoint(x, s, config);
    var before, after := s[..k], s[k..];
    assert s == before + after;
    var r := before + [x] + after;
    assert multiset(r) == multiset(before) + multiset{x} + multiset(after);
    assert forall i :: 0 <= i < |r| ==> r[i] in multiset(r);
    r
  }

  /** Inserting into a priority-ordered list keeps it ordered. */
  lemma InsertKeepsSorted(x: LevelInput, s: seq<LevelInput>, config: Config)
    requires x.name in config && Configured(s, config) && SortedByPriority(s, config)
    ensures SortedByPriority(Insert(x, s, config), config)
  {
    var k := InsertionPoint(x, s, config);
    var r := Insert(x, s, config);
    assert forall i :: 0 <= i < |r| ==> r[i] == (if i < k then s[i] else if i == k then x else s[i - 1]);
    forall i, j | 0 <= i < j < |r| ensures Priority(r[i], config) <= Priority(r[j], config) {
      if j < k || i > k {
      } else if i == k {
        assert Priority(x, config) < Priority(s[k], config);
        assert Priority(s[k], config) <= Priority(s[j - 1], config);
      } else if j == k {
      } else {
        assert Priority(s[i], config) <= Priority(x, config);
        assert Priority(x, config) < Priority(s[k], config);
        assert Priority(s[k], config) <= Priority(s[j - 1], config);
      }
    }
  }

  /**
   * `Object.keys(speciesByTrophicLevel).sort(byPriority)`: the result is
   * ordered by priority and is a permutation of the input; SortIsStable
   * shows that equal priorities keep their input order, as `Array.sort` does.
   */
  function SortByPriority(levels: seq<LevelInput>, config: Config): (r: seq<LevelInput>)
    requires Configured(levels, config)
    ensures |r| == |levels|
    ensures multiset(r) == multiset(levels)
    ensures Configured(r, config)
    ensures SortedByPriority(r, config)
  {
    if |levels| == 0 then []
    else
      var init := levels[..|levels| - 1];
      assert levels == init + [levels[|levels| - 1]];
      var sortedInit := SortByPriority(init, config);
      InsertKeepsSorted(levels[|levels| - 1], sortedInit, config);
      Insert(levels[|levels| - 1], sortedInit, config)
  }

  /** Input already in priority order comes out of the sort unchanged. */
  lemma {:induction false} SortKeepsSortedInput(levels: seq<LevelInput>, config: Config)
    requires Configured(levels, config) && SortedByPriority(levels, config)
    ensures SortByPriority(levels, config) == levels
  {
    if |levels| > 0 {
      var init := levels[..|levels| - 1];
      var x := levels[|levels| - 1];
      assert SortedByPriority(init, config);
      SortKeepsSortedInput(init, config);
      InsertAfterAll(x, init, config);
      assert init + [x] == levels;
    }
  }

  /** The levels of priority `p`, in the order they appear. */
  function WithPriority(s: seq<LevelInput>, p: int, config: Config): seq<LevelInput>
    requires Configured(s, config)
  {
    if |s| == 0 then []
    else
      var last := s[|s| - 1];
      WithPriority(s[..|s| - 1], p, config) + (if Priority(last, config) == p then [last] else [])
  }

  lemma ConcatConfigured(a: seq<LevelInput>, b: seq<LevelInput>, config: Config)
    requires Configured(a, config) && Configured(b, config)
    ensures Configured(a + b, config)
  {
    forall i | 0 <= i < |a + b| ensures (a + b)[i].name in config {
      if i < |a| { assert (a + b)[i] == a[i]; } else { assert (a + b)[i] == b[i - |a|]; }
    }
  }

  lemma {:induction false} WithPriorityConcat(a: seq<LevelInput>, b: seq<LevelInput>, p: int, config: Config)
    requires Configured(a, config) && Configured(b, config)
    ensures Configured(a + b, config)
    ensures WithPriority(a + b, p, config) == WithPriority(a, p, config) + WithPriority(b, p, config)
    decreases |b|
  {
    ConcatConfigured(a, b, config);
    if |b| == 0 {
      assert a + b == a;
    } else {
      var init, last := b[..|b| - 1], b[|b| - 1];
      assert Configured(init, config);
      assert (a + b)[..|a + b| - 1] == a + init;
      assert (a + b)[|a + b| - 1] == last;
      WithPriorityConcat(a, init, p, config);
      var tail := if Priority(last, config) == p then [last] else [];
      assert WithPriority(a + b, p, config) == WithPriority(a + init, p, config) + tail;
      assert WithPriority(b, p, config) == WithPriority(init, p, config) + tail;
    }
  }

  lemma {:induction false} WithPriorityNone(s: seq<LevelInput>, p: int, config: Config)
    requires Configured(s, config)
    requires forall i :: 0 <= i < |s| ==> Priority(s[i], config) != p
    ensures WithPriority(s, p, config) == []
    decreases |s|
  {
    if |s| > 0 {
      WithPriorityNone(s[..|s| - 1], p, config);
    }
  }

  /** In an ordered list, everything from the insertion point on has a higher priority than `x`. */
  lemma AfterInsertionPoint(x: LevelInput, s: seq<LevelInput>, config: Config)
    requires x.name in config && Configured(s, config) && SortedByPriority(s, config)
    ensures forall i :: InsertionPoint(x, s, config) <= i < |s| ==> Priority(x, config) < Priority(s[i], config)
  {
    var k := InsertionPoint(x, s, config);
    forall i | k <= i < |s| ensures Priority(x, config) < Priority(s[i], config) {
      assert Priority(s[k], config) <= Priority(s[i], config);
    }
  }

  lemma FilterSplit(before: seq<LevelInput>, x: LevelInput, after: seq<LevelInput>, p: int, config: Config)
    requires x.name in config && Configured(before, config) && Configured(after, config)
    ensures Configured(before + [x] + after, config)
    ensures WithPriority(before + [x] + after, p, config) ==
      WithPriority(before, p, config) + (if Priority(x, config) == p then [x] else []) + WithPriority(after, p, config)
  {
    assert Configured([x], config);
    WithPriorityConcat(before, [x], p, config);
    WithPriorityConcat(before + [x], after, p, config);
    assert [x][..0] == [];
  }

  /** The list `Insert` builds: the part before the insertion point, then `x`, then the rest. */
  lemma InsertShape(x: LevelInput, s: seq<LevelInput>, config: Config)
    requires x.name in config && Configured(s, config)
    ensures var k := InsertionPoint(x, s, config);
      Insert(x, s, config) == s[..k] + [x] + s[k..]
  {
  }

  /** Filtering a list is filtering its two halves, split at any point. */
  lemma SplitFilter(s: seq<LevelInput>, k: nat, p: int, config: Config)
    requires Configured(s, config) && k <= |s|
    ensures Configured(s[..k], config) && Configured(s[k..], config)
    ensures WithPriority(s, p, config) == WithPriority(s[..k], p, config) + WithPriority(s[k..], p, config)
  {
    assert forall i :: 0 <= i < k ==> s[..k][i] == s[i];
    assert forall i :: 0 <= i < |s| - k ==> s[k..][i] == s[k + i];
    assert s == s[..k] + s[k..];
    WithPriorityConcat(s[..k], s[k..], p, config);
  }

  /** A suffix holding no level of priority `q` contributes nothing to the `q` filter. */
  lemma NoneAfter(s: seq<LevelInput>, k: nat, q: int, config: Config)
    requires Configured(s, config) && k <= |s|
    requires forall i :: k <= i < |s| ==> Priority(s[i], config) != q
    ensures Configured(s[k..], config) && WithPriority(s[k..], q, config) == []
  {
    forall j | 0 <= j < |s[k..]| ensures s[k..][j].name in config && Priority(s[k..][j], config) != q {
      assert s[k..][j] == s[k + j];
    }
    WithPriorityNone(s[k..], q, config);
  }

  /** Placing `x` at position `k`, ahead of every level of its priority after `k`, appends it to its priority's filter. */
  lemma FilterInsertAt(s: seq<LevelInput>, k: nat, x: LevelInput, p: int, config: Config)
    requires x.name in config && Configured(s, config) && k <= |s|
    requires forall i :: k <= i < |s| ==> Priority(s[i], config) != Priority(x, config)
    ensures Configured(s[..k] + [x] + s[k..], config)
    ensures WithPriority(s[..k] + [x] + s[k..], p, config) ==
      WithPriority(s, p, config) + (if Priority(x, config) == p then [x] else [])
  {
    SplitFilter(s, k, p, config);
    FilterSplit(s[..k], x, s[k..], p, config);
    if Priority(x, config) == p {
      NoneAfter(s, k, p, config);
    }
  }

  /** `Insert` filtered by priority, given that nothing from the insertion point on shares `x`'s priority. */
  lemma InsertFiltered(x: LevelInput, s: seq<LevelInput>, p: int, config: Config)
    requires x.name in config && Configured(s, config)
    requires forall i :: InsertionPoint(x, s, config) <= i < |s| ==> Priority(x, config) < Priority(s[i], config)
    ensures WithPriority(Insert(x, s, config), p, config) ==
      WithPriority(s, p, config) + (if Priority(x, config) == p then [x] else [])
  {
    var k := InsertionPoint(x, s, config);
    InsertShape(x, s, config);
    FilterInsertAt(s, k, x, p, config);
  }

  /** Inserting into an ordered list appends `x` to the levels of its own priority and leaves the others alone. */
  lemma InsertWithPriority(x: LevelInput, s: seq<LevelInput>, p: int, config: Config)
    requires x.name in config && Configured(s, config) && SortedByPriority(s, config)
    ensures WithPriority(Insert(x, s, config), p, config) ==
      WithPriority(s, p, config) + (if Priority(x, config) == p then [x] else [])
  {
    AfterInsertionPoint(x, s, config);
    InsertFiltered(x, s, p, config);
  }

  /**
   * The sort is stable: for every priority, the levels of that priority
   * come out in the order they went in.
   */
  lemma {:induction false} SortIsStable(levels: seq<LevelInput>, p: int, config: Config)
    requires Configured(levels, config)
    ensures WithPriority(SortByPriority(levels, config), p, config) == WithPriority(levels, p, config)
    decreases |levels|
  {
    if |levels| > 0 {
      var init := levels[..|levels| - 1];
      var x := levels[|levels| - 1];
      SortIsStable(init, p, config);
      InsertWithPriority(x, SortByPriority(init, config), p, config);
    }
  }

  /** Inserting an element whose priority is at least every other appends it. */
  lemma InsertAfterAll(x: LevelInput, s: seq<LevelInput>, config: Config)
    requires x.name in config && Configured(s, config)
    requires forall i :: 0 <= i < |s| ==> Priority(s[i], config) <= Priority(x, config)
    ensures Insert(x, s, config) == s + [x]
  {
    assert InsertionPoint(x, s, config) == |s|;
    assert s[..|s|] == s;
  }

  /** `species.forEach(spec => totalScore += calculateSpeciesScore(...))`, left to right. */
  function SpeciesListScore(species: seq<SpeciesRecord>): (s: real)
    ensures (forall i :: 0 <= i < |species| ==> species[i].population == 0.0) ==> s == 0.0
    ensures NonNegativeRecords(species) ==> s >= 0.0
  {
    if |species| == 0 then 0.0
    else
      var init := species[..|species| - 1];
      var last := species[|species| - 1];
      assert forall i :: 0 <= i < |init| ==> init[i] == species[i];
      SpeciesListScore(init)
        + EcosystemHealth.SpeciesScore(last.population, last.biomassPerIndividual, last.energyPerIndividual,
                                       EcosystemHealth.BiomassWeight, EcosystemHealth.EnergyWeight)
  }

  /** A single record scores its population times the equal-weighted biomass and energy. */
  lemma SingleRecordScore(r: SpeciesRecord)
    ensures SpeciesListScore([r]) == r.population * (0.5 * r.biomassPerIndividual + 0.5 * r.energyPerIndividual)
  {
    assert [r][..0] == [];
  }

  predicate NonNegativeRecords(species: seq<SpeciesRecord>) {
    forall i :: 0 <= i < |species| ==>
      species[i].population >= 0.0 && species[i].biomassPerIndividual >= 0.0 && species[i].energyPerIndividual >= 0.0
  }

  /** A level's score; `speciesByTrophicLevel[level] || []` makes an absent array count as empty. */
  function LevelScore(l: LevelInput): real {
    SpeciesListScore(l.species.GetOr([]))
  }

  /**
   * One level's normalised value against the level above (`None` for the
   * top level): an empty level above multiplies `score/ideal` by 0.1, a
   * deviation below 0.2 gives 1, a larger one multiplies by
   * `max(0.1, 1 - deviation)`; the result is capped at 1.
   */
  function NormalizedLevel(curr: EcosystemHealth.LevelSummary, next: Option<EcosystemHealth.LevelSummary>): (v: real)
    requires curr.ideal != 0.0 && (next.Some? ==> next.value.ideal != 0.0)
    ensures v <= 1.0
    ensures curr.score / curr.ideal >= 0.0 ==> v >= 0.0
    ensures curr.score == 0.0 && curr.ideal > 0.0 && (next.Some? ==> next.value.ideal > 0.0) ==> v == 0.0
  {
    var currScore := curr.score / curr.ideal;
    match next
    case None => Min(1.0, currScore)
    case Some(n) =>
      if n.score == 0.0 then
        ScaledScore(currScore, PenaltyFloor);
        Min(1.0, currScore * PenaltyFloor)
      else
        var idealRatio := curr.ideal / n.ideal;
        var deviation := Abs(curr.score / n.score - idealRatio) / idealRatio;
        ZeroScoreDeviation(curr.score, n.score, curr.ideal, n.ideal);
        if deviation < DefaultTolerance then 1.0
        else
          var penalty := Max(PenaltyFloor, 1.0 - deviation);
          ScaledScore(currScore, penalty);
          Min(1.0, currScore * penalty)
  }

  /** Scaling by a penalty of at least the floor keeps a non-negative score non-negative, and 0 at 0. */
  lemma ScaledScore(score: real, penalty: real)
    requires penalty >= PenaltyFloor
    ensures score >= 0.0 ==> score * penalty >= 0.0
    ensures score == 0.0 ==> score * penalty == 0.0
  {
  }

  /** A level scoring 0 under positive ideals deviates by exactly 1 from its ideal ratio. */
  lemma ZeroScoreDeviation(score: real, nextScore: real, ideal: real, nextIdeal: real)
    requires nextScore != 0.0 && ideal != 0.0 && nextIdeal != 0.0
    ensures score == 0.0 && ideal > 0.0 && nextIdeal > 0.0 ==>
      Abs(score / nextScore - ideal / nextIdeal) / (ideal / nextIdeal) == 1.0
  {
    if score == 0.0 && ideal > 0.0 && nextIdeal > 0.0 {
      var r := ideal / nextIdeal;
      assert r > 0.0;
      assert score / nextScore == 0.0;
      assert Abs(0.0 - r) == r;
    }
  }

  /**
   * The two health variants agree on every level except when the level
   * above scores 0 and either this level scores 0 too (the context variant
   * yields NaN) or the ideal ratio is negative (it yields 1). This variant
   * applies the 0.1 penalty in both cases. With only the level above at 0
   * and a positive ratio, both variants apply the 0.1 penalty.
   */
  lemma VariantsAgree(curr: EcosystemHealth.LevelSummary, next: Option<EcosystemHealth.LevelSummary>)
    requires curr.ideal != 0.0 && (next.Some? ==> next.value.ideal != 0.0)
    ensures next.None? || next.value.score != 0.0 ==>
      EcosystemHealth.NormalizedScore(curr, next) == Health(NormalizedLevel(curr, next))
    ensures next.Some? && next.value.score == 0.0 && curr.score != 0.0 && curr.ideal / next.value.ideal > 0.0 ==>
      EcosystemHealth.NormalizedScore(curr, next) == Health(NormalizedLevel(curr, next))
    ensures next.Some? && next.value.score == 0.0 && curr.score == 0.0 ==>
      EcosystemHealth.NormalizedScore(curr, next).NotANumber?
    ensures next.Some? && next.value.score == 0.0 && curr.score != 0.0 && curr.ideal / next.value.ideal < 0.0 ==>
      EcosystemHealth.NormalizedScore(curr, next) == Health(1.0)
      && NormalizedLevel(curr, next) == Min(1.0, curr.score / curr.ideal * PenaltyFloor)
  {
  }

  function Summarize(l: LevelInput, config: Config): EcosystemHealth.LevelSummary
    requires l.name in config
  {
    EcosystemHealth.LevelSummary(LevelScore(l), config[l.name].idealRatio)
  }

  predicate IdealsNonZero(config: Config) {
    forall k :: k in config ==> config[k].idealRatio != 0.0
  }

  predicate IdealsPositive(config: Config) {
    forall k :: k in config ==> config[k].idealRatio > 0.0
  }

  /** The normalised values of a priority-ordered list of levels. */
  function NormalizedValues(sorted: seq<LevelInput>, config: Config): (vs: seq<real>)
    requires Configured(sorted, config) && IdealsNonZero(config)
    ensures |vs| == |sorted|
    ensures forall i :: 0 <= i < |sorted| ==> vs[i] == NormalizedLevel(Summarize(sorted[i], config),
      if i + 1 < |sorted| then Some(Summarize(sorted[i + 1], config)) else None)
  {
    seq(|sorted|, i requires 0 <= i < |sorted| =>
      NormalizedLevel(Summarize(sorted[i], config), if i + 1 < |sorted| then Some(Summarize(sorted[i + 1], config)) else None))
  }

  /**
   * `calculateEcosystemBalance(speciesByTrophicLevel)`: an error when some
   * level has no configuration, NaN when there are no levels, otherwise the
   * mean of the priority-ordered level values.
   */
  function Calculate(levels: seq<LevelInput>, config: Config): (r: Result<Health, BalanceError>)
    requires IdealsNonZero(config)
    ensures r.Err? <==> !Configured(levels, config)
    ensures r.Ok? ==> (r.value.NotANumber? <==> |levels| == 0)
  {
    if !Configured(levels, config) then Err(UnconfiguredLevel)
    else Ok(Mean(NormalizedValues(SortByPriority(levels, config), config)))
  }

  /**
   * An `IDEAL_RATIOS` entry as the configuration file may hold it:
   * `idealRatio` is `None` when the property is absent, which is the case
   * for every entry of the shipped ecosystemConfig.js.
   */
  datatype ConfigEntry = ConfigEntry(priority: int, idealRatio: Option<real>)

  type RawConfig = map<string, ConfigEntry>

  /** The shipped `IDEAL_RATIOS`: the four levels with priorities 0 to 3 and no `idealRatio`. */
  function ShippedConfig(): RawConfig {
    map["producer" := ConfigEntry(0, None), "herbivore" := ConfigEntry(1, None),
        "primaryCarnivore" := ConfigEntry(2, None), "secondaryCarnivore" := ConfigEntry(3, None)]
  }

  predicate RawIdealsNonZero(config: RawConfig) {
    forall k :: k in config && config[k].idealRatio.Some? ==> config[k].idealRatio.value != 0.0
  }

  /** True when some input level's configuration has no `idealRatio`. */
  predicate SomeIdealMissing(levels: seq<LevelInput>, config: RawConfig) {
    exists i :: 0 <= i < |levels| && levels[i].name in config && config[levels[i].name].idealRatio.None?
  }

  /** The configuration with every ideal present; an entry without one is never read by the levels that reach it. */
  function WithIdeals(config: RawConfig): (c: Config)
    requires RawIdealsNonZero(config)
    ensures IdealsNonZero(c) && c.Keys == config.Keys
    ensures forall k :: k in config ==> c[k].priority == config[k].priority
    ensures forall k :: k in config && config[k].idealRatio.Some? ==> c[k].idealRatio == config[k].idealRatio.value
  {
    map k | k in config :: LevelConfig(config[k].priority, config[k].idealRatio.GetOr(1.0))
  }

  /**
   * `calculateEcosystemBalance` against a configuration whose ideals may be
   * absent. A level without an ideal computes `score / undefined`, which is
   * NaN; no penalty branch and no `Math.min` turns a NaN back into a number,
   * so the sum and the health are NaN. With every ideal present it is
   * `Calculate`.
   */
  function CalculateAsWritten(levels: seq<LevelInput>, config: RawConfig): (r: Result<Health, BalanceError>)
    requires RawIdealsNonZero(config)
    ensures r.Err? <==> !Configured(levels, WithIdeals(config))
    ensures r.Ok? && SomeIdealMissing(levels, config) ==> r.value.NotANumber?
    ensures !SomeIdealMissing(levels, config) ==> r == Calculate(levels, WithIdeals(config))
  {
    var c := WithIdeals(config);
    if !Configured(levels, c) then Err(UnconfiguredLevel)
    else if SomeIdealMissing(levels, config) then Ok(NotANumber)
    else Calculate(levels, c)
  }

  /**
   * With the shipped configuration every configured input scores NaN: a
   * non-empty one through the missing ideals, the empty one as 0/0.
   */
  lemma ShippedConfigGivesNaN(levels: seq<LevelInput>)
    requires forall i :: 0 <= i < |levels| ==> levels[i].name in ShippedConfig()
    ensures CalculateAsWritten(levels, ShippedConfig()) == Ok(NotANumber)
  {
    var c := WithIdeals(ShippedConfig());
    assert Configured(levels, c);
    if |levels| > 0 {
      assert ShippedConfig()[levels[0].name].idealRatio.None?;
      assert SomeIdealMissing(levels, ShippedConfig());
    }
  }

  predicate NonNegativeLevel(l: LevelInput) {
    l.species.Some? ==> NonNegativeRecords(l.species.value)
  }

  predicate NonNegativeInput(levels: seq<LevelInput>) {
    forall l :: l in levels ==> NonNegativeLevel(l)
  }

  lemma NormalizedLevelInUnit(curr: EcosystemHealth.LevelSummary, next: Option<EcosystemHealth.LevelSummary>)
    requires curr.score >= 0.0 && curr.ideal > 0.0 && (next.Some? ==> next.value.ideal != 0.0)
    ensures 0.0 <= NormalizedLevel(curr, next) <= 1.0
  {
    assert curr.score / curr.ideal >= 0.0;
  }

  lemma ValuesInUnit(sorted: seq<LevelInput>, config: Config)
    requires IdealsPositive(config) && Configured(sorted, config) && NonNegativeInput(sorted)
    ensures AllInUnit(NormalizedValues(sorted, config))
  {
    var vs := NormalizedValues(sorted, config);
    forall i | 0 <= i < |vs| ensures 0.0 <= vs[i] <= 1.0 {
      assert NonNegativeLevel(sorted[i]);
      var next := if i + 1 < |sorted| then Some(Summarize(sorted[i + 1], config)) else None;
      NormalizedLevelInUnit(Summarize(sorted[i], config), next);
    }
  }

  /** A permutation keeps the non-negativity of its elements. */
  lemma PermutationKeepsNonNegative(levels: seq<LevelInput>, sorted: seq<LevelInput>)
    requires multiset(sorted) == multiset(levels) && NonNegativeInput(levels)
    ensures NonNegativeInput(sorted)
  {
    forall l | l in sorted ensures NonNegativeLevel(l) {
      assert l in multiset(sorted);
    }
  }

  /** With non-negative species data and positive ideals, the health lies in [0, 1]. */
  lemma HealthInUnitInterval(levels: seq<LevelInput>, config: Config)
    requires IdealsPositive(config) && Configured(levels, config) && NonNegativeInput(levels)
    ensures var r := Calculate(levels, config);
      r.Ok? && (r.value.Health? ==> 0.0 <= r.value.value <= 1.0)
  {
    var sorted := SortByPriority(levels, config);
    PermutationKeepsNonNegative(levels, sorted);
    ValuesInUnit(sorted, config);
    assert Calculate(levels, config) == Ok(Mean(NormalizedValues(sorted, config)));
  }

  /** With positive ideals, an ecosystem whose levels all have no species (or absent arrays) scores exactly 0. */
  lemma EmptyEcosystemScoresZero(levels: seq<LevelInput>, config: Config)
    requires IdealsPositive(config) && Configured(levels, config) && |levels| > 0
    requires forall i :: 0 <= i < |levels| ==> levels[i].species.None? || levels[i].species == Some([])
    ensures Calculate(levels, config) == Ok(Health(0.0))
  {
    var sorted := SortByPriority(levels, config);
    var vs := NormalizedValues(sorted, config);
    forall i | 0 <= i < |vs| ensures vs[i] == 0.0 {
      assert sorted[i] in multiset(levels);
      var k :| 0 <= k < |levels| && levels[k] == sorted[i];
      assert LevelScore(sorted[i]) == 0.0;
    }
  }

  /**
   * The four levels with priorities 0 to 3, as in ecosystemConfig.js, and
   * ideal ratios 1000, 400, 150 and 80, which are that file's `biomass`
   * values: the shipped entries have no `idealRatio` (see `ShippedConfig`).
   */
  function ExampleConfig(): Config {
    map["producer" := LevelConfig(0, 1000.0), "herbivore" := LevelConfig(1, 400.0),
        "primaryCarnivore" := LevelConfig(2, 150.0), "secondaryCarnivore" := LevelConfig(3, 80.0)]
  }

  function ExampleLevels(producer: seq<SpeciesRecord>, herbivore: seq<SpeciesRecord>,
                         primary: seq<SpeciesRecord>, secondary: seq<SpeciesRecord>): seq<LevelInput> {
    [LevelInput("producer", Some(producer)), LevelInput("herbivore", Some(herbivore)),
     LevelInput("primaryCarnivore", Some(primary)), LevelInput("secondaryCarnivore", Some(secondary))]
  }

  /** The normalised values of four priority-ordered levels with the example ideals and the given scores. */
  function ExampleValues(a: real, b: real, c: real, d: real): seq<real> {
    [NormalizedLevel(EcosystemHealth.LevelSummary(a, 1000.0), Some(EcosystemHealth.LevelSummary(b, 400.0))),
     NormalizedLevel(EcosystemHealth.LevelSummary(b, 400.0), Some(EcosystemHealth.LevelSummary(c, 150.0))),
     NormalizedLevel(EcosystemHealth.LevelSummary(c, 150.0), Some(EcosystemHealth.LevelSummary(d, 80.0))),
     NormalizedLevel(EcosystemHealth.LevelSummary(d, 80.0), None)]
  }

  /** The example levels are configured and already in priority order, so sorting leaves them as they are. */
  lemma ExampleLevelsSorted(p: seq<SpeciesRecord>, h: seq<SpeciesRecord>, c: seq<SpeciesRecord>, s: seq<SpeciesRecord>)
    ensures Configured(ExampleLevels(p, h, c, s), ExampleConfig())
    ensures SortByPriority(ExampleLevels(p, h, c, s), ExampleConfig()) == ExampleLevels(p, h, c, s)
  {
    var config := ExampleConfig();
    var levels := ExampleLevels(p, h, c, s);
    assert Configured(levels, config);
    assert SortedByPriority(levels, config);
    SortKeepsSortedInput(levels, config);
  }

  /** The example levels' values, computed from their scores and the example ideals. */
  lemma ExampleLevelValues(p: seq<SpeciesRecord>, h: seq<SpeciesRecord>, c: seq<SpeciesRecord>, s: seq<SpeciesRecord>)
    requires Configured(ExampleLevels(p, h, c, s), ExampleConfig())
    ensures NormalizedValues(ExampleLevels(p, h, c, s), ExampleConfig())
      == ExampleValues(SpeciesListScore(p), SpeciesListScore(h), SpeciesListScore(c), SpeciesListScore(s))
  {
    var config := ExampleConfig();
    var levels := ExampleLevels(p, h, c, s);
    var s0 := EcosystemHealth.LevelSummary(SpeciesListScore(p), 1000.0);
    var s1 := EcosystemHealth.LevelSummary(SpeciesListScore(h), 400.0);
    var s2 := EcosystemHealth.LevelSummary(SpeciesListScore(c), 150.0);
    var s3 := EcosystemHealth.LevelSummary(SpeciesListScore(s), 80.0);
    assert Summarize(levels[0], config) == s0;
    assert Summarize(levels[1], config) == s1;
    assert Summarize(levels[2], config) == s2;
    assert Summarize(levels[3], config) == s3;
  }

  /** The health of the example levels is the mean of their values in input order. */
  lemma ExampleCalculation(p: seq<SpeciesRecord>, h: seq<SpeciesRecord>, c: seq<SpeciesRecord>, s: seq<SpeciesRecord>)
    ensures Calculate(ExampleLevels(p, h, c, s), ExampleConfig())
      == Ok(Mean(ExampleValues(SpeciesListScore(p), SpeciesListScore(h), SpeciesListScore(c), SpeciesListScore(s))))
  {
    ExampleLevelsSorted(p, h, c, s);
    ExampleLevelValues(p, h, c, s);
  }

  lemma SumOfFour(a: real, b: real, c: real, d: real)
    ensures Sum([a, b, c, d]) == a + b + c + d
  {
    assert [a][..0] == [];
    assert Sum([a]) == a;
    assert [a, b][..1] == [a];
    assert Sum([a, b]) == a + b;
    assert [a, b, c][..2] == [a, b];
    assert Sum([a, b, c]) == a + b + c;
    assert [a, b, c, d][..3] == [a, b, c];
  }

  lemma MeanOfFour(a: real, b: real, c: real, d: real)
    ensures Mean([a, b, c, d]) == Health((a + b + c + d) / 4.0)
  {
    SumOfFour(a, b, c, d);
  }

  /**
   * A lone producer (score 1000) above three empty levels, with ideal
   * ratios 1000/400/150/80 (the configuration's biomass values): the
   * producer level gets 1000/1000 * 0.1 and the rest 0, so the health is
   * 0.025, not 0. With the shipped configuration it is NaN
   * (`ProducerOnlyAsShipped`).
   */
  lemma ProducerOnlyExample(producer: SpeciesRecord)
    requires producer == SpeciesRecord(100.0, 10.0, 10.0)
    ensures Calculate(ExampleLevels([producer], [], [], []), ExampleConfig()) == Ok(Health(0.025))
  {
    ExampleCalculation([producer], [], [], []);
    SingleRecordScore(producer);
    assert SpeciesListScore([producer]) == 1000.0;
    assert SpeciesListScore([]) == 0.0;
    assert ExampleValues(1000.0, 0.0, 0.0, 0.0) == [0.1, 0.0, 0.0, 0.0];
    MeanOfFour(0.1, 0.0, 0.0, 0.0);
  }

  /** Levels exactly at their ideal ratios score 1; the level under an extinct apex gets the 0.1 penalty. */
  lemma ApexExtinctValues()
    ensures ExampleValues(1000.0, 400.0, 150.0, 0.0) == [1.0, 1.0, 0.1, 0.0]
  {
    assert NormalizedLevel(EcosystemHealth.LevelSummary(1000.0, 1000.0), Some(EcosystemHealth.LevelSummary(400.0, 400.0))) == 1.0;
    assert NormalizedLevel(EcosystemHealth.LevelSummary(400.0, 400.0), Some(EcosystemHealth.LevelSummary(150.0, 150.0))) == 1.0;
  }

  /**
   * Scores 1000, 400 and 150 under an extinct apex, with ideal ratios
   * 1000/400/150/80 (the configuration's biomass values), so the scores are
   * exactly the ideals: values 1, 1, 0.1 and 0, and the health is 0.525,
   * not 0.
   */
  lemma ApexExtinctExample(producer: SpeciesRecord, herbivore: SpeciesRecord, carnivore: SpeciesRecord)
    requires producer == SpeciesRecord(100.0, 10.0, 10.0)
    requires herbivore == SpeciesRecord(40.0, 10.0, 10.0)
    requires carnivore == SpeciesRecord(15.0, 10.0, 10.0)
    ensures Calculate(ExampleLevels([producer], [herbivore], [carnivore], []), ExampleConfig()) == Ok(Health(0.525))
  {
    ExampleCalculation([producer], [herbivore], [carnivore], []);
    SingleRecordScore(producer);
    SingleRecordScore(herbivore);
    SingleRecordScore(carnivore);
    assert SpeciesListScore([producer]) == 1000.0;
    assert SpeciesListScore([herbivore]) == 400.0;
    assert SpeciesListScore([carnivore]) == 150.0;
    assert SpeciesListScore([]) == 0.0;
    ApexExtinctValues();
    MeanOfFour(1.0, 1.0, 0.1, 0.0);
  }

  /** The lone-producer input against the shipped configuration scores NaN, neither 0.025 nor 0. */
  lemma ProducerOnlyAsShipped(producer: SpeciesRecord)
    requires producer == SpeciesRecord(100.0, 10.0, 10.0)
    ensures CalculateAsWritten(ExampleLevels([producer], [], [], []), ShippedConfig()) == Ok(NotANumber)
  {
    ShippedConfigGivesNaN(ExampleLevels([producer], [], [], []));
  }
}
