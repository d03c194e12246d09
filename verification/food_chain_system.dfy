/**
 * FoodChainSystem (systems/FoodChainSystem.jsx): predator/prey balancing
 * between each pair of adjacent trophic levels, in ecological order.
 */
module FoodChainSystem {
  import opened Wrappers
  import JsNumbers
  import opened Populations
  import opened Trophic
  import opened GameContexts
  import opened HealthHelpers

  /** The key `populations.get(Number(id))` looks up, when `Number(id)` is an integer. */
  function NumberKey(id: string): (k: Option<Key>)
    ensures k.Some? <==> JsNumbers.ParseNumber(id).Some?
    ensures k.Some? ==> k.value == NumKey(JsNumbers.ParseNumber(id).value)
  {
    match JsNumbers.ParseNumber(id)
    case Some(n) => Some(NumKey(n))
    case None => None
  }

  /** True when the object key `id` names a population in the registry. */
  predicate Resolves(id: string, pops: Registry) {
    NumberKey(id).Some? && NumberKey(id).value in pops
  }

  /** The size an id contributes to a total: its population's size, or 0 when it has none. */
  function SizeOf(id: string, pops: Registry): real {
    if Resolves(id, pops) then pops[NumberKey(id).value].size else 0.0
  }

  predicate AllSizesNonNegative(pops: Registry) {
    forall k :: k in pops ==> pops[k].size >= 0.0
  }

  /** `getTotalPopulation(ids)`: the sizes of the ids' populations, summed in key order; ids with no population add nothing. */
  function TotalPopulation(ids: seq<string>, pops: Registry): (t: real)
    ensures AllSizesNonNegative(pops) ==> t >= 0.0
    ensures (forall i :: 0 <= i < |ids| ==> !Resolves(ids[i], pops)) ==> t == 0.0
    ensures AllSizesNonNegative(pops) && t == 0.0 ==> forall i :: 0 <= i < |ids| ==> SizeOf(ids[i], pops) == 0.0
  {
    if |ids| == 0 then 0.0
    else
      var init := ids[..|ids| - 1];
      assert forall i :: 0 <= i < |init| ==> init[i] == ids[i];
      TotalPopulation(init, pops) + SizeOf(ids[|ids| - 1], pops)
  }

  datatype UpdateKind = GrowthUpdate | MortalityUpdate

  function Update(p: Population, kind: UpdateKind, m: real): Population {
    match kind
    case GrowthUpdate => Grow(p, m)
    case MortalityUpdate => Mortality(p, m)
  }

  /** True when some id of `ids` names the population under key `k`. */
  predicate Referenced(ids: seq<string>, k: Key) {
    exists i :: 0 <= i < |ids| && NumberKey(ids[i]) == Some(k)
  }

  /** No two ids name the same population (`"1"` and `"01"` would). */
  predicate ResolveDistinct(ids: seq<string>) {
    forall i, j :: 0 <= i < j < |ids| && NumberKey(ids[i]).Some? ==> NumberKey(ids[i]) != NumberKey(ids[j])
  }

  /**
   * The `for (const id of ids)` update loops: each id, in order, whose
   * `Number(id)` names a population gives that population one update with
   * multiplier `m`.
   */
  function UpdateAll(ids: seq<string>, pops: Registry, kind: UpdateKind, m: real): (r: Registry)
    ensures r.Keys == pops.Keys
    decreases |ids|
  {
    if |ids| == 0 then pops
    else
      var next := if Resolves(ids[0], pops) then
          var k := NumberKey(ids[0]).value; pops[k := Update(pops[k], kind, m)]
        else pops;
      UpdateAll(ids[1..], next, kind, m)
  }

  lemma NotReferencedInTail(ids: seq<string>, k: Key)
    requires |ids| > 0 && ResolveDistinct(ids) && NumberKey(ids[0]) == Some(k)
    ensures ResolveDistinct(ids[1..])
    ensures !Referenced(ids[1..], k)
  {
    var rest := ids[1..];
    forall i, j | 0 <= i < j < |rest| && NumberKey(rest[i]).Some? ensures NumberKey(rest[i]) != NumberKey(rest[j]) {
      assert rest[i] == ids[i + 1] && rest[j] == ids[j + 1];
    }
    forall i | 0 <= i < |rest| ensures NumberKey(rest[i]) != Some(k) {
      assert rest[i] == ids[i + 1];
    }
  }

  lemma ReferencedInTail(ids: seq<string>, k: Key)
    requires |ids| > 0 && NumberKey(ids[0]) != Some(k)
    ensures Referenced(ids, k) <==> Referenced(ids[1..], k)
    ensures ResolveDistinct(ids) ==> ResolveDistinct(ids[1..])
  {
    var rest := ids[1..];
    if Referenced(rest, k) {
      var i :| 0 <= i < |rest| && NumberKey(rest[i]) == Some(k);
      assert ids[i + 1] == rest[i];
    }
    if Referenced(ids, k) {
      var i :| 0 <= i < |ids| && NumberKey(ids[i]) == Some(k);
      assert i != 0;
      assert ids[i] == rest[i - 1];
    }
    if ResolveDistinct(ids) {
      forall i, j | 0 <= i < j < |rest| && NumberKey(rest[i]).Some? ensures NumberKey(rest[i]) != NumberKey(rest[j]) {
        assert rest[i] == ids[i + 1] && rest[j] == ids[j + 1];
      }
    }
  }

  /**
   * What the update loops do to one population: only its size changes; it
   * is untouched when no id names it, and updated exactly once when ids
   * name distinct populations.
   */
  lemma {:induction false} UpdateAllAt(ids: seq<string>, pops: Registry, kind: UpdateKind, m: real, k: Key)
    requires k in pops
    ensures SameIdentity(UpdateAll(ids, pops, kind, m)[k], pops[k])
    ensures !Referenced(ids, k) ==> UpdateAll(ids, pops, kind, m)[k] == pops[k]
    ensures ResolveDistinct(ids) && Referenced(ids, k) ==> UpdateAll(ids, pops, kind, m)[k] == Update(pops[k], kind, m)
    decreases |ids|
  {
    if |ids| > 0 {
      var rest := ids[1..];
      var next := if Resolves(ids[0], pops) then
          var k0 := NumberKey(ids[0]).value; pops[k0 := Update(pops[k0], kind, m)]
        else pops;
      assert UpdateAll(ids, pops, kind, m) == UpdateAll(rest, next, kind, m);
      UpdateAllAt(rest, next, kind, m, k);
      if NumberKey(ids[0]) == Some(k) {
        assert next[k] == Update(pops[k], kind, m);
        assert Referenced(ids, k) by { assert NumberKey(ids[0]) == Some(k); }
        if ResolveDistinct(ids) {
          NotReferencedInTail(ids, k);
        }
      } else {
        assert next[k] == pops[k];
        ReferencedInTail(ids, k);
      }
    }
  }

  /** What a pair of adjacent levels does this round. */
  datatype PairEffect =
    | ZeroTotal                           // one of the totals is 0: the pair is skipped
    | WithinTolerance(deviation: real)    // deviation below 20%: no change
    | PreyScarce(deviation: real)         // predators die faster, prey recover
    | PreyAbundant(deviation: real)       // predators grow, prey die a little faster

  /** The balance tolerance, 20%. */
  const Tolerance: real := 0.2

  /** Classifies a pair from its two totals and the two ideal ratios. */
  function ClassifyTotals(tp: real, tq: real, idealPrey: real, idealPredator: real): (e: PairEffect)
    requires idealPrey != 0.0 && idealPredator != 0.0
    ensures e.ZeroTotal? <==> tp == 0.0 || tq == 0.0
    ensures !e.ZeroTotal? ==> e.deviation == RatioDeviation(tp, tq, idealPrey, idealPredator)
    ensures e.WithinTolerance? <==> !e.ZeroTotal? && e.deviation < Tolerance
    ensures e.PreyScarce? <==> !e.ZeroTotal? && e.deviation >= Tolerance && tp / tq < idealPrey / idealPredator
  {
    if tp == 0.0 || tq == 0.0 then ZeroTotal
    else
      var actual := tp / tq;
      var ideal := idealPrey / idealPredator;
      var deviation := Abs(actual - ideal) / ideal;
      if deviation < Tolerance then WithinTolerance(deviation)
      else if actual < ideal then PreyScarce(deviation)
      else PreyAbundant(deviation)
  }

  /** Classifies the pair `(prey, predator)` from the current totals and the ideal ratios read with `|| 1`. */
  function Classify(prey: TrophicLevel, predator: TrophicLevel, pops: Registry): (e: PairEffect)
    ensures var tp := TotalPopulation(SpeciesKeys(prey), pops);
      var tq := TotalPopulation(SpeciesKeys(predator), pops);
      && (e.ZeroTotal? <==> tp == 0.0 || tq == 0.0)
      && (!e.ZeroTotal? ==> e.deviation == RatioDeviation(tp, tq, IdealOr1(prey), IdealOr1(predator)))
      && (e.WithinTolerance? <==> !e.ZeroTotal? && e.deviation < Tolerance)
      && (e.PreyScarce? <==> !e.ZeroTotal? && e.deviation >= Tolerance && tp / tq < IdealOr1(prey) / IdealOr1(predator))
  {
    ClassifyTotals(TotalPopulation(SpeciesKeys(prey), pops), TotalPopulation(SpeciesKeys(predator), pops),
                   IdealOr1(prey), IdealOr1(predator))
  }

  /** The update loops an effect runs, predators first and then prey. */
  function ApplyEffect(e: PairEffect, preyIds: seq<string>, predatorIds: seq<string>, pops: Registry): (r: Registry)
    ensures r.Keys == pops.Keys
  {
    match e
    case ZeroTotal => pops
    case WithinTolerance(_) => pops
    case PreyScarce(d) =>
      UpdateAll(preyIds, UpdateAll(predatorIds, pops, MortalityUpdate, 1.0 + d), GrowthUpdate, 1.0 + d / 2.0)
    case PreyAbundant(d) =>
      UpdateAll(preyIds, UpdateAll(predatorIds, pops, GrowthUpdate, 1.0 + d), MortalityUpdate, 1.0 + d / 4.0)
  }

  /** One iteration of the pair loop, on levels `i` (prey) and `i + 1` (predators). */
  function ApplyPair(prey: TrophicLevel, predator: TrophicLevel, pops: Registry): (r: Registry)
    ensures r.Keys == pops.Keys
  {
    ApplyEffect(Classify(prey, predator, pops), SpeciesKeys(prey), SpeciesKeys(predator), pops)
  }

  /** An effect only updates populations its two key lists name, and only their sizes. */
  lemma ApplyEffectAt(e: PairEffect, preyIds: seq<string>, predatorIds: seq<string>, pops: Registry, k: Key)
    requires k in pops
    ensures SameIdentity(ApplyEffect(e, preyIds, predatorIds, pops)[k], pops[k])
    ensures !Referenced(preyIds, k) && !Referenced(predatorIds, k) ==>
      ApplyEffect(e, preyIds, predatorIds, pops)[k] == pops[k]
  {
    match e
    case ZeroTotal =>
    case WithinTolerance(_) =>
    case PreyScarce(d) =>
      var mid := UpdateAll(predatorIds, pops, MortalityUpdate, 1.0 + d);
      UpdateAllAt(predatorIds, pops, MortalityUpdate, 1.0 + d, k);
      UpdateAllAt(preyIds, mid, GrowthUpdate, 1.0 + d / 2.0, k);
    case PreyAbundant(d) =>
      var mid := UpdateAll(predatorIds, pops, GrowthUpdate, 1.0 + d);
      UpdateAllAt(predatorIds, pops, GrowthUpdate, 1.0 + d, k);
      UpdateAllAt(preyIds, mid, MortalityUpdate, 1.0 + d / 4.0, k);
  }

  /** True when `k` is named by some species key of some level. */
  predicate ReferencedByLevels(levels: seq<TrophicLevel>, k: Key) {
    exists i :: 0 <= i < |levels| && Referenced(SpeciesKeys(levels[i]), k)
  }

  /**
   * The pair loop from pair `i` on: each pair sees the populations the
   * earlier pairs left, so a middle level can be updated twice per round.
   */
  function ApplyPairsFrom(levels: seq<TrophicLevel>, i: nat, pops: Registry): (r: Registry)
    ensures r.Keys == pops.Keys
    decreases |levels| - i
  {
    if i + 1 >= |levels| then pops
    else ApplyPairsFrom(levels, i + 1, ApplyPair(levels[i], levels[i + 1], pops))
  }

  /** The whole pair loop only changes sizes, and only of populations some level names. */
  lemma {:induction false} ApplyPairsFromAt(levels: seq<TrophicLevel>, i: nat, pops: Registry, k: Key)
    requires k in pops
    ensures SameIdentity(ApplyPairsFrom(levels, i, pops)[k], pops[k])
    ensures !ReferencedByLevels(levels, k) ==> ApplyPairsFrom(levels, i, pops)[k] == pops[k]
    decreases |levels| - i
  {
    if i + 1 < |levels| {
      var next := ApplyPair(levels[i], levels[i + 1], pops);
      ApplyEffectAt(Classify(levels[i], levels[i + 1], pops), SpeciesKeys(levels[i]), SpeciesKeys(levels[i + 1]), pops, k);
      ApplyPairsFromAt(levels, i + 1, next, k);
      if !ReferencedByLevels(levels, k) {
        assert !Referenced(SpeciesKeys(levels[i]), k);
        assert !Referenced(SpeciesKeys(levels[i + 1]), k);
      }
    }
  }

  /** `FoodChainSystem.apply(context)`: the pair loop over the context's levels and populations. */
  function Apply(ctx: Context): (r: Context)
    ensures r.(populations := ctx.populations) == ctx
    ensures r.populations.Keys == ctx.populations.Keys
  {
    ctx.(populations := ApplyPairsFrom(ctx.trophicLevels, 0, ctx.populations))
  }

  /**
   * `apply` changes only population sizes, and only of populations named by
   * some level's species keys; the trophic levels and all else stay as they were.
   */
  lemma ApplyOnlyTouchesNamed(ctx: Context, k: Key)
    requires k in ctx.populations
    ensures SameIdentity(Apply(ctx).populations[k], ctx.populations[k])
    ensures !ReferencedByLevels(ctx.trophicLevels, k) ==> Apply(ctx).populations[k] == ctx.populations[k]
  {
    ApplyPairsFromAt(ctx.trophicLevels, 0, ctx.populations, k);
  }

  lemma QuotientBelowOne(p: real, q: real)
    requires 0.0 <= p < q
    ensures p / q < 1.0
  {
    var r := p / q;
    assert r * q == p;
    var s := 1.0 - r;
    assert s * q == q - p;
    assert s * q > 0.0;
  }

  /**
   * When prey are scarce and both totals and ideals are positive, the
   * deviation lies in [0.2, 1), so predators' mortality multiplier lies in
   * [1.2, 2) and prey's growth multiplier in [1.1, 1.5).
   */
  lemma ScarceMultiplierBounds(prey: TrophicLevel, predator: TrophicLevel, pops: Registry)
    requires AllSizesNonNegative(pops)
    requires prey.idealRatio > 0.0 && predator.idealRatio > 0.0
    requires Classify(prey, predator, pops).PreyScarce?
    ensures var d := Classify(prey, predator, pops).deviation;
      && 0.2 <= d < 1.0
      && 1.2 <= 1.0 + d < 2.0
      && 1.1 <= 1.0 + d / 2.0 < 1.5
  {
    var tp := TotalPopulation(SpeciesKeys(prey), pops);
    var tq := TotalPopulation(SpeciesKeys(predator), pops);
    var ideal := IdealOr1(prey) / IdealOr1(predator);
    assert tp > 0.0 && tq > 0.0;
    var actual := tp / tq;
    assert ideal > 0.0;
    assert actual > 0.0;
    var d := Classify(prey, predator, pops).deviation;
    assert d == (ideal - actual) / ideal;
    QuotientBelowOne(ideal - actual, ideal);
  }

  /** True when the prey and predator keys never name the same population. */
  predicate DisjointResolution(a: seq<string>, b: seq<string>) {
    forall i, j :: 0 <= i < |a| && 0 <= j < |b| && NumberKey(a[i]).Some? ==> NumberKey(a[i]) != NumberKey(b[j])
  }

  lemma NotReferencedByBoth(a: seq<string>, b: seq<string>, k: Key)
    requires DisjointResolution(a, b)
    ensures Referenced(a, k) ==> !Referenced(b, k)
  {
    if Referenced(a, k) {
      var i :| 0 <= i < |a| && NumberKey(a[i]) == Some(k);
      forall j | 0 <= j < |b| ensures NumberKey(b[j]) != Some(k) {
        assert NumberKey(a[i]) != NumberKey(b[j]);
      }
    }
  }

  /** The scarce-prey loops on key lists naming distinct populations: each named population is updated once. */
  lemma ScarceEffectAt(d: real, preyIds: seq<string>, predatorIds: seq<string>, pops: Registry, k: Key)
    requires ResolveDistinct(preyIds) && ResolveDistinct(predatorIds) && DisjointResolution(preyIds, predatorIds)
    requires k in pops
    ensures var r := ApplyEffect(PreyScarce(d), preyIds, predatorIds, pops);
      && (Referenced(predatorIds, k) ==> r[k] == Mortality(pops[k], 1.0 + d))
      && (Referenced(preyIds, k) ==> r[k] == Grow(pops[k], 1.0 + d / 2.0))
  {
    var mid := UpdateAll(predatorIds, pops, MortalityUpdate, 1.0 + d);
    NotReferencedByBoth(preyIds, predatorIds, k);
    UpdateAllAt(predatorIds, pops, MortalityUpdate, 1.0 + d, k);
    UpdateAllAt(preyIds, mid, GrowthUpdate, 1.0 + d / 2.0, k);
  }

  /** The abundant-prey loops on key lists naming distinct populations: each named population is updated once. */
  lemma AbundantEffectAt(d: real, preyIds: seq<string>, predatorIds: seq<string>, pops: Registry, k: Key)
    requires ResolveDistinct(preyIds) && ResolveDistinct(predatorIds) && DisjointResolution(preyIds, predatorIds)
    requires k in pops
    ensures var r := ApplyEffect(PreyAbundant(d), preyIds, predatorIds, pops);
      && (Referenced(predatorIds, k) ==> r[k] == Grow(pops[k], 1.0 + d))
      && (Referenced(preyIds, k) ==> r[k] == Mortality(pops[k], 1.0 + d / 4.0))
  {
    var mid := UpdateAll(predatorIds, pops, GrowthUpdate, 1.0 + d);
    NotReferencedByBoth(preyIds, predatorIds, k);
    UpdateAllAt(predatorIds, pops, GrowthUpdate, 1.0 + d, k);
    UpdateAllAt(preyIds, mid, MortalityUpdate, 1.0 + d / 4.0, k);
  }

  /**
   * Under scarcity, for levels naming distinct populations, every predator
   * gets mortality multiplier `1 + d` and every prey growth multiplier `1 + d/2`.
   */
  lemma ScarcityEffects(prey: TrophicLevel, predator: TrophicLevel, pops: Registry, k: Key)
    requires ResolveDistinct(SpeciesKeys(prey)) && ResolveDistinct(SpeciesKeys(predator))
    requires DisjointResolution(SpeciesKeys(prey), SpeciesKeys(predator))
    requires k in pops
    requires Classify(prey, predator, pops).PreyScarce?
    ensures var d := Classify(prey, predator, pops).deviation;
      var r := ApplyPair(prey, predator, pops);
      && (Referenced(SpeciesKeys(predator), k) ==> r[k] == Mortality(pops[k], 1.0 + d))
      && (Referenced(SpeciesKeys(prey), k) ==> r[k] == Grow(pops[k], 1.0 + d / 2.0))
  {
    var e := Classify(prey, predator, pops);
    assert e == PreyScarce(e.deviation);
    assert ApplyPair(prey, predator, pops) == ApplyEffect(PreyScarce(e.deviation), SpeciesKeys(prey), SpeciesKeys(predator), pops);
    ScarceEffectAt(e.deviation, SpeciesKeys(prey), SpeciesKeys(predator), pops, k);
  }

  /**
   * Under abundance, for levels naming distinct populations, every predator
   * gets growth multiplier `1 + d` and every prey mortality multiplier `1 + d/4`.
   */
  lemma AbundanceEffects(prey: TrophicLevel, predator: TrophicLevel, pops: Registry, k: Key)
    requires ResolveDistinct(SpeciesKeys(prey)) && ResolveDistinct(SpeciesKeys(predator))
    requires DisjointResolution(SpeciesKeys(prey), SpeciesKeys(predator))
    requires k in pops
    requires Classify(prey, predator, pops).PreyAbundant?
    ensures var d := Classify(prey, predator, pops).deviation;
      var r := ApplyPair(prey, predator, pops);
      && (Referenced(SpeciesKeys(predator), k) ==> r[k] == Grow(pops[k], 1.0 + d))
      && (Referenced(SpeciesKeys(prey), k) ==> r[k] == Mortality(pops[k], 1.0 + d / 4.0))
  {
    var e := Classify(prey, predator, pops);
    assert e == PreyAbundant(e.deviation);
    assert ApplyPair(prey, predator, pops) == ApplyEffect(PreyAbundant(e.deviation), SpeciesKeys(prey), SpeciesKeys(predator), pops);
    AbundantEffectAt(e.deviation, SpeciesKeys(prey), SpeciesKeys(predator), pops, k);
  }

  /** A skipped or balanced pair changes nothing. */
  lemma QuietPairUnchanged(prey: TrophicLevel, predator: TrophicLevel, pops: Registry)
    requires Classify(prey, predator, pops).ZeroTotal? || Classify(prey, predator, pops).WithinTolerance?
    ensures ApplyPair(prey, predator, pops) == pops
  {
  }

  /** True when every adjacent pair is skipped or sits exactly at its ideal ratio. */
  predicate AtIdealRatios(levels: seq<TrophicLevel>, pops: Registry) {
    forall i :: 0 <= i < |levels| - 1 ==> PairAtIdeal(levels, i, pops)
  }

  /** The pair `(i, i + 1)` is skipped or sits exactly at its ideal ratio. */
  predicate PairAtIdeal(levels: seq<TrophicLevel>, i: nat, pops: Registry)
    requires i + 1 < |levels|
  {
    var tp := TotalPopulation(SpeciesKeys(levels[i]), pops);
    var tq := TotalPopulation(SpeciesKeys(levels[i + 1]), pops);
    tp == 0.0 || tq == 0.0 || tp / tq == IdealOr1(levels[i]) / IdealOr1(levels[i + 1])
  }

  /** A pair at its exact ideal ratio has deviation 0, inside the tolerance. */
  lemma AtIdealIsQuiet(prey: TrophicLevel, predator: TrophicLevel, pops: Registry)
    requires var tp := TotalPopulation(SpeciesKeys(prey), pops);
      var tq := TotalPopulation(SpeciesKeys(predator), pops);
      tp == 0.0 || tq == 0.0 || tp / tq == IdealOr1(prey) / IdealOr1(predator)
    ensures Classify(prey, predator, pops) == ZeroTotal || Classify(prey, predator, pops) == WithinTolerance(0.0)
  {
    ClassifyAtIdeal(TotalPopulation(SpeciesKeys(prey), pops), TotalPopulation(SpeciesKeys(predator), pops),
                    IdealOr1(prey), IdealOr1(predator));
  }

  lemma ClassifyAtIdeal(tp: real, tq: real, idealPrey: real, idealPredator: real)
    requires idealPrey != 0.0 && idealPredator != 0.0
    requires tp == 0.0 || tq == 0.0 || tp / tq == idealPrey / idealPredator
    ensures ClassifyTotals(tp, tq, idealPrey, idealPredator) == ZeroTotal
         || ClassifyTotals(tp, tq, idealPrey, idealPredator) == WithinTolerance(0.0)
  {
  }

  lemma {:induction false} BalancedPairsUnchanged(levels: seq<TrophicLevel>, i: nat, pops: Registry)
    requires AtIdealRatios(levels, pops)
    ensures ApplyPairsFrom(levels, i, pops) == pops
    decreases |levels| - i
  {
    if i + 1 < |levels| {
      assert PairAtIdeal(levels, i, pops);
      AtIdealIsQuiet(levels[i], levels[i + 1], pops);
      assert ApplyPair(levels[i], levels[i + 1], pops) == pops;
      BalancedPairsUnchanged(levels, i + 1, pops);
    }
  }

  /** Populations at the ideal ratios are a fixed point of the system. */
  lemma BalancedIsFixedPoint(ctx: Context)
    requires AtIdealRatios(ctx.trophicLevels, ctx.populations)
    ensures Apply(ctx) == ctx
  {
    BalancedPairsUnchanged(ctx.trophicLevels, 0, ctx.populations);
  }

  /** `apply` run `n` times. */
  function ApplyTimes(ctx: Context, n: nat): Context {
    if n == 0 then ctx else Apply(ApplyTimes(ctx, n - 1))
  }

  /** From populations at the ideal ratios, any number of rounds changes nothing, so no size turns negative. */
  lemma {:induction false} BalancedStaysPut(ctx: Context, n: nat)
    requires AtIdealRatios(ctx.trophicLevels, ctx.populations)
    ensures ApplyTimes(ctx, n) == ctx
    ensures AllSizesNonNegative(ctx.populations) ==> AllSizesNonNegative(ApplyTimes(ctx, n).populations)
  {
    if n > 0 {
      BalancedStaysPut(ctx, n - 1);
      BalancedIsFixedPoint(ctx);
    }
  }

  /** A level holding at most one species, under object key `key`. */
  function FixtureLevel(name: string, priority: int, ideal: real, key: Option<string>): TrophicLevel {
    var entries: SpeciesMap := if key.Some? then [SpeciesEntry(key.value, SpeciesData(0.0, 0.0))] else [];
    TrophicLevel(name, priority, entries, ideal, [])
  }

  /** The test fixture's context object: only its trophic levels and populations are set. */
  function FixtureContext(levels: seq<TrophicLevel>, pops: Registry): Context {
    Context(1, 3, pops, levels, [], [], false, None, None)
  }

  /** A population with growth rate 0.1 and mortality rate 0.05. */
  function FixturePopulation(id: int, size: real): Population {
    Population(NumKey(id), size, 0.1, 0.05)
  }

  /** Four levels with ideals 1000/400/150/80; only producers ("1") and primary consumers ("2") hold a species. */
  function TwoSpeciesContext(prey: real, predator: real): Context {
    var levels := [
      FixtureLevel("Producers", 0, 1000.0, Some("1")),
      FixtureLevel("Primary Consumers", 1, 400.0, Some("2")),
      FixtureLevel("Secondary Consumers", 2, 150.0, None),
      FixtureLevel("Tertiary Consumers", 3, 80.0, None)];
    FixtureContext(levels, map[NumKey(1) := FixturePopulation(1, prey), NumKey(2) := FixturePopulation(2, predator)])
  }

  /** An update loop over one id that names a population updates exactly that population. */
  lemma UpdateOne(id: string, pops: Registry, kind: UpdateKind, m: real)
    requires Resolves(id, pops)
    ensures UpdateAll([id], pops, kind, m) == pops[NumberKey(id).value := Update(pops[NumberKey(id).value], kind, m)]
  {
    assert [id][1..] == [];
  }

  /** A pair whose predator level holds no species is skipped. */
  lemma EmptyPredatorSkipped(prey: TrophicLevel, predator: TrophicLevel, pops: Registry)
    requires |predator.speciesMap| == 0
    ensures ApplyPair(prey, predator, pops) == pops
  {
    assert TotalPopulation(SpeciesKeys(predator), pops) == 0.0;
  }

  /**
   * In the two-species fixture only the producer/primary pair can act: the
   * round is that pair's effect with the totals `prey` and `predator`.
   */
  lemma TwoSpeciesRound(prey: real, predator: real)
    ensures Apply(TwoSpeciesContext(prey, predator)).populations
      == ApplyEffect(ClassifyTotals(prey, predator, 1000.0, 400.0), ["1"], ["2"], TwoSpeciesContext(prey, predator).populations)
  {
    var ctx := TwoSpeciesContext(prey, predator);
    var levels := ctx.trophicLevels;
    var pops := ctx.populations;
    FixtureKeys();
    assert SpeciesKeys(levels[0]) == ["1"] && SpeciesKeys(levels[1]) == ["2"];
    SingleKeyTotal("1", pops);
    SingleKeyTotal("2", pops);
    var after := ApplyPair(levels[0], levels[1], pops);
    assert after == ApplyEffect(ClassifyTotals(prey, predator, 1000.0, 400.0), ["1"], ["2"], pops);
    EmptyPredatorSkipped(levels[1], levels[2], after);
    EmptyPredatorSkipped(levels[2], levels[3], after);
    assert ApplyPairsFrom(levels, 1, after) == after;
  }

  /** The fixture's object keys "1" to "4" name the registry keys 1 to 4. */
  lemma FixtureKeys()
    ensures NumberKey("1") == Some(NumKey(1)) && NumberKey("2") == Some(NumKey(2))
    ensures NumberKey("3") == Some(NumKey(3)) && NumberKey("4") == Some(NumKey(4))
  {
    assert JsNumbers.ParseNumber("1") == Some(1) && JsNumbers.ParseNumber("2") == Some(2);
    assert JsNumbers.ParseNumber("3") == Some(3) && JsNumbers.ParseNumber("4") == Some(4);
  }

  /** Scarce prey in the two-species fixture: the predator (key "2") dies faster, then the prey (key "1") grows. */
  lemma TwoSpeciesScarce(d: real, prey: real, predator: real)
    ensures var r := ApplyEffect(PreyScarce(d), ["1"], ["2"], TwoSpeciesContext(prey, predator).populations);
      && NumKey(1) in r && NumKey(2) in r
      && r[NumKey(2)].size == predator * (1.0 - 0.05 * (1.0 + d))
      && r[NumKey(1)].size == prey * (1.0 + 0.1 * (1.0 + d / 2.0))
  {
    var pops := TwoSpeciesContext(prey, predator).populations;
    FixtureKeys();
    UpdateOne("2", pops, MortalityUpdate, 1.0 + d);
    var mid := UpdateAll(["2"], pops, MortalityUpdate, 1.0 + d);
    UpdateOne("1", mid, GrowthUpdate, 1.0 + d / 2.0);
  }

  /** Abundant prey in the two-species fixture: the predator (key "2") grows, then the prey (key "1") dies faster. */
  lemma TwoSpeciesAbundant(d: real, prey: real, predator: real)
    ensures var r := ApplyEffect(PreyAbundant(d), ["1"], ["2"], TwoSpeciesContext(prey, predator).populations);
      && NumKey(1) in r && NumKey(2) in r
      && r[NumKey(2)].size == predator * (1.0 + 0.1 * (1.0 + d))
      && r[NumKey(1)].size == prey * (1.0 - 0.05 * (1.0 + d / 4.0))
  {
    var pops := TwoSpeciesContext(prey, predator).populations;
    FixtureKeys();
    UpdateOne("2", pops, GrowthUpdate, 1.0 + d);
    var mid := UpdateAll(["2"], pops, GrowthUpdate, 1.0 + d);
    UpdateOne("1", mid, MortalityUpdate, 1.0 + d / 4.0);
  }

  /** A scarce-prey round of the fixture, in terms of the deviation `d`. */
  lemma ScarceRound(prey: real, predator: real, d: real)
    requires ClassifyTotals(prey, predator, 1000.0, 400.0) == PreyScarce(d)
    ensures var r := Apply(TwoSpeciesContext(prey, predator)).populations;
      && NumKey(1) in r && NumKey(2) in r
      && r[NumKey(2)].size == predator * (1.0 - 0.05 * (1.0 + d))
      && r[NumKey(1)].size == prey * (1.0 + 0.1 * (1.0 + d / 2.0))
  {
    TwoSpeciesRound(prey, predator);
    TwoSpeciesScarce(d, prey, predator);
  }

  /** An abundant-prey round of the fixture, in terms of the deviation `d`. */
  lemma AbundantRound(prey: real, predator: real, d: real)
    requires ClassifyTotals(prey, predator, 1000.0, 400.0) == PreyAbundant(d)
    ensures var r := Apply(TwoSpeciesContext(prey, predator)).populations;
      && NumKey(1) in r && NumKey(2) in r
      && r[NumKey(2)].size == predator * (1.0 + 0.1 * (1.0 + d))
      && r[NumKey(1)].size == prey * (1.0 - 0.05 * (1.0 + d / 4.0))
  {
    TwoSpeciesRound(prey, predator);
    TwoSpeciesAbundant(d, prey, predator);
  }

  /** 1000 prey against 380 predators is within 20% of the ideal 2.5, so nothing changes. */
  lemma NearIdealIsStable(prey: real, predator: real)
    requires prey == 1000.0 && predator == 380.0
    ensures Apply(TwoSpeciesContext(prey, predator)) == TwoSpeciesContext(prey, predator)
  {
    TwoSpeciesRound(prey, predator);
    assert ClassifyTotals(1000.0, 380.0, 1000.0, 400.0).WithinTolerance?;
    assert ClassifyTotals(prey, predator, 1000.0, 400.0) == ClassifyTotals(1000.0, 380.0, 1000.0, 400.0);
  }

  /**
   * 10 prey against 1000 predators: the deviation is 0.996, predators fall
   * to 900.2 (more than 10% of the later expectation "below 90%" would need)
   * and prey grow to 11.498.
   */
  lemma ScarcePreyExample(prey: real, predator: real)
    requires prey == 10.0 && predator == 1000.0
    ensures Apply(TwoSpeciesContext(prey, predator)).populations[NumKey(2)].size == 900.2
    ensures Apply(TwoSpeciesContext(prey, predator)).populations[NumKey(1)].size == 11.498
  {
    assert ClassifyTotals(10.0, 1000.0, 1000.0, 400.0) == PreyScarce(0.996);
    ScarceRound(prey, predator, 0.996);
  }

  /** 5000 prey against 100 predators: the deviation is 19, predators triple to 300 and prey fall to 3562.5. */
  lemma AbundantPreyExample(prey: real, predator: real)
    requires prey == 5000.0 && predator == 100.0
    ensures Apply(TwoSpeciesContext(prey, predator)).populations[NumKey(2)].size == 300.0
    ensures Apply(TwoSpeciesContext(prey, predator)).populations[NumKey(1)].size == 3562.5
  {
    assert ClassifyTotals(5000.0, 100.0, 1000.0, 400.0) == PreyAbundant(19.0);
    AbundantRound(prey, predator, 19.0);
  }

  /** With no clamp, strong abundance drives prey below zero: 100000 prey against 1 predator end at -49903750. */
  lemma AbundanceCanTurnPreyNegative(prey: real, predator: real)
    requires prey == 100000.0 && predator == 1.0
    ensures Apply(TwoSpeciesContext(prey, predator)).populations[NumKey(1)].size == -49903750.0
  {
    assert ClassifyTotals(100000.0, 1.0, 1000.0, 400.0) == PreyAbundant(39999.0);
    AbundantRound(prey, predator, 39999.0);
  }

  /** Zero prey and zero predators: every pair is skipped. */
  lemma ZeroTotalsAreSkipped(prey: real, predator: real)
    requires prey == 0.0 && predator == 0.0
    ensures Apply(TwoSpeciesContext(prey, predator)) == TwoSpeciesContext(prey, predator)
  {
    TwoSpeciesRound(prey, predator);
  }

  /** Four levels with ideals 1000/400/150/80, each holding one species (keys "1" to "4") of the given size. */
  function FourSpeciesContext(a: real, b: real, c: real, e: real): Context {
    FixtureContext(
      [FixtureLevel("Producers", 0, 1000.0, Some("1")),
       FixtureLevel("Primary Consumers", 1, 400.0, Some("2")),
       FixtureLevel("Secondary Consumers", 2, 150.0, Some("3")),
       FixtureLevel("Tertiary Consumers", 3, 80.0, Some("4"))],
      map[NumKey(1) := FixturePopulation(1, a), NumKey(2) := FixturePopulation(2, b),
          NumKey(3) := FixturePopulation(3, c), NumKey(4) := FixturePopulation(4, e)])
  }

  /** Four species at exactly the ideals 1000/400/150/80. */
  function CrashTestContext(): Context {
    FourSpeciesContext(1000.0, 400.0, 150.0, 80.0)
  }

  /** Each level of the four-species fixture totals the size of its one species. */
  lemma FourSpeciesTotals(a: real, b: real, c: real, e: real)
    ensures var ctx := FourSpeciesContext(a, b, c, e);
      && |ctx.trophicLevels| == 4
      && TotalPopulation(SpeciesKeys(ctx.trophicLevels[0]), ctx.populations) == a
      && TotalPopulation(SpeciesKeys(ctx.trophicLevels[1]), ctx.populations) == b
      && TotalPopulation(SpeciesKeys(ctx.trophicLevels[2]), ctx.populations) == c
      && TotalPopulation(SpeciesKeys(ctx.trophicLevels[3]), ctx.populations) == e
  {
    var pops := FourSpeciesContext(a, b, c, e).populations;
    FixtureKeys();
    FixtureLevelTotal("Producers", 0, 1000.0, "1", pops);
    FixtureLevelTotal("Primary Consumers", 1, 400.0, "2", pops);
    FixtureLevelTotal("Secondary Consumers", 2, 150.0, "3", pops);
    FixtureLevelTotal("Tertiary Consumers", 3, 80.0, "4", pops);
  }

  /** A fixture level holding one species that names a population totals that population's size. */
  lemma FixtureLevelTotal(name: string, priority: int, ideal: real, key: string, pops: Registry)
    requires Resolves(key, pops)
    ensures TotalPopulation(SpeciesKeys(FixtureLevel(name, priority, ideal, Some(key))), pops) == pops[NumberKey(key).value].size
  {
    assert SpeciesKeys(FixtureLevel(name, priority, ideal, Some(key))) == [key];
    SingleKeyTotal(key, pops);
  }

  /** Sizes in the proportions 1000 : 400 : 150 : 80 put every pair of the fixture at its ideal ratio. */
  lemma ProportionalIsBalanced(a: real, b: real, c: real, e: real)
    requires b != 0.0 && c != 0.0 && e != 0.0
    requires a / b == 1000.0 / 400.0 && b / c == 400.0 / 150.0 && c / e == 150.0 / 80.0
    ensures AtIdealRatios(FourSpeciesContext(a, b, c, e).trophicLevels, FourSpeciesContext(a, b, c, e).populations)
  {
    var ctx := FourSpeciesContext(a, b, c, e);
    var levels := ctx.trophicLevels;
    var pops := ctx.populations;
    FourSpeciesTotals(a, b, c, e);
    PairAtIdealIntro(levels, 0, pops);
    PairAtIdealIntro(levels, 1, pops);
    PairAtIdealIntro(levels, 2, pops);
    PairwiseIdealRatios(levels, pops);
  }

  /** The total over a single key that names a population is that population's size. */
  lemma SingleKeyTotal(id: string, pops: Registry)
    requires Resolves(id, pops)
    ensures TotalPopulation([id], pops) == pops[NumberKey(id).value].size
  {
    assert [id][..0] == [];
  }

  lemma PairAtIdealIntro(levels: seq<TrophicLevel>, i: nat, pops: Registry)
    requires i + 1 < |levels|
    requires TotalPopulation(SpeciesKeys(levels[i + 1]), pops) != 0.0
    requires TotalPopulation(SpeciesKeys(levels[i]), pops) / TotalPopulation(SpeciesKeys(levels[i + 1]), pops)
      == IdealOr1(levels[i]) / IdealOr1(levels[i + 1])
    ensures PairAtIdeal(levels, i, pops)
  {
  }

  /** `AtIdealRatios` for four levels, from its three pairs. */
  lemma PairwiseIdealRatios(levels: seq<TrophicLevel>, pops: Registry)
    requires |levels| == 4
    requires PairAtIdeal(levels, 0, pops) && PairAtIdeal(levels, 1, pops) && PairAtIdeal(levels, 2, pops)
    ensures AtIdealRatios(levels, pops)
  {
    forall i | 0 <= i < |levels| - 1 ensures PairAtIdeal(levels, i, pops) {
      assert i == 0 || i == 1 || i == 2;
    }
  }

  /** Any number of rounds from the ideals (the test runs five) leave every population as it was, none negative. */
  lemma CrashTestExample(rounds: nat)
    ensures ApplyTimes(CrashTestContext(), rounds) == CrashTestContext()
    ensures AllSizesNonNegative(ApplyTimes(CrashTestContext(), rounds).populations)
  {
    var ctx := CrashTestContext();
    ProportionalIsBalanced(1000.0, 400.0, 150.0, 80.0);
    BalancedStaysPut(ctx, rounds);
    assert AllSizesNonNegative(ctx.populations);
  }
}
