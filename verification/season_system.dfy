/**
 * SeasonSystem (systems/SeasonSystem.jsx): seasonal growth and mortality
 * multipliers applied to the producer level's populations.
 */
module SeasonSystem {
  import opened Wrappers
  import opened Populations
  import opened Trophic
  import opened GameContexts

  /** `producerGrowthModifiers`. */
  const GrowthModifiers: map<Season, real> := map[Spring := 1.5, Summer := 1.0, Fall := 0.7, Winter := 0.3]

  /** `producerMortalityModifiers`. */
  const MortalityModifiers: map<Season, real> := map[Spring := 0.5, Summer := 1.0, Fall := 1.3, Winter := 5.0]

  /** `table[season] || 1.0`: an unknown season, or an entry of 0, falls back to 1. */
  function ModifierOr1(table: map<Season, real>, season: Option<Season>): (m: real)
    ensures m != 0.0
    ensures season.Some? && season.value in table && table[season.value] != 0.0 ==> m == table[season.value]
    ensures season.None? || season.value !in table || table[season.value] == 0.0 ==> m == 1.0
  {
    if season.Some? && season.value in table && table[season.value] != 0.0 then table[season.value] else 1.0
  }

  /** The multipliers each season yields. */
  lemma ModifierValues()
    ensures ModifierOr1(GrowthModifiers, Some(Spring)) == 1.5 && ModifierOr1(MortalityModifiers, Some(Spring)) == 0.5
    ensures ModifierOr1(GrowthModifiers, Some(Summer)) == 1.0 && ModifierOr1(MortalityModifiers, Some(Summer)) == 1.0
    ensures ModifierOr1(GrowthModifiers, Some(Fall)) == 0.7 && ModifierOr1(MortalityModifiers, Some(Fall)) == 1.3
    ensures ModifierOr1(GrowthModifiers, Some(Winter)) == 0.3 && ModifierOr1(MortalityModifiers, Some(Winter)) == 5.0
    ensures ModifierOr1(GrowthModifiers, None) == 1.0 && ModifierOr1(MortalityModifiers, None) == 1.0
  {
  }

  /** One producer's seasonal update: growth first, then mortality on the grown size. */
  function SeasonStep(p: Population, g: real, m: real): Population {
    Mortality(Grow(p, g), m)
  }

  /** True when `k` is the registry key of one of the first `n` producer keys. */
  predicate AmongFirst(keys: seq<string>, n: int, k: Key)
    requires 0 <= n <= |keys|
  {
    exists i :: 0 <= i < n && k == StrKey(keys[i])
  }

  /** The position of the first producer key with no population, or `|keys|` when every key has one. */
  function FirstMissing(keys: seq<string>, present: set<Key>): (j: nat)
    ensures j <= |keys|
    ensures forall i :: 0 <= i < j ==> StrKey(keys[i]) in present
    ensures j < |keys| ==> StrKey(keys[j]) !in present
  {
    if |keys| == 0 || StrKey(keys[0]) !in present then 0
    else 1 + FirstMissing(keys[1..], present)
  }

  /** The registry with the first `n` producers given the seasonal update and every other entry as it was. */
  function UpdatedPrefix(keys: seq<string>, n: nat, pops: Registry, g: real, m: real): Registry
    requires n <= |keys|
  {
    map k | k in pops :: if AmongFirst(keys, n, k) then SeasonStep(pops[k], g, m) else pops[k]
  }

  lemma UpdatedPrefixStep(keys: KeyList, n: nat, pops: Registry, g: real, m: real)
    requires 0 < |keys| && n < |keys| && StrKey(keys[0]) in pops
    ensures var k := StrKey(keys[0]);
      UpdatedPrefix(keys[1..], n, pops[k := SeasonStep(pops[k], g, m)], g, m) == UpdatedPrefix(keys, n + 1, pops, g, m)
  {
    var k := StrKey(keys[0]);
    var rest := keys[1..];
    var pops1 := pops[k := SeasonStep(pops[k], g, m)];
    var a := UpdatedPrefix(rest, n, pops1, g, m);
    var b := UpdatedPrefix(keys, n + 1, pops, g, m);
    assert a.Keys == b.Keys;
    forall q | q in a ensures a[q] == b[q] {
      if q == k {
        assert AmongFirst(keys, n + 1, q) by {
          assert q == StrKey(keys[0]);
        }
        assert !AmongFirst(rest, n, q) by {
          forall i | 0 <= i < n ensures q != StrKey(rest[i]) {
            assert rest[i] == keys[i + 1];
          }
        }
      } else {
        assert AmongFirst(rest, n, q) <==> AmongFirst(keys, n + 1, q) by {
          if AmongFirst(rest, n, q) {
            var i :| 0 <= i < n && q == StrKey(rest[i]);
            assert q == StrKey(keys[i + 1]);
          }
          if AmongFirst(keys, n + 1, q) {
            var i :| 0 <= i < n + 1 && q == StrKey(keys[i]);
            assert i != 0;
            assert q == StrKey(rest[i - 1]);
          }
        }
      }
    }
  }

  /**
   * The `for (producer in populationMap)` loop: producers are updated in key
   * order; the first one with no population throws, and those before it keep
   * their updates (there is no rollback).
   */
  function UpdateProducers(keys: KeyList, pops: Registry, g: real, m: real): (r: Step<Registry>)
    ensures var j := FirstMissing(keys, pops.Keys);
      && r.state == UpdatedPrefix(keys, j, pops, g, m)
      && r.thrown == (if j < |keys| then Some(ProducerNotFound(keys[j])) else None)
    decreases |keys|
  {
    if |keys| == 0 then
      assert UpdatedPrefix(keys, 0, pops, g, m) == pops;
      Step(pops, None)
    else
      var k := StrKey(keys[0]);
      if k !in pops then
        assert UpdatedPrefix(keys, 0, pops, g, m) == pops;
        Step(pops, Some(ProducerNotFound(keys[0])))
      else
        var rest: KeyList := keys[1..];
        var pops1 := pops[k := SeasonStep(pops[k], g, m)];
        var r := UpdateProducers(rest, pops1, g, m);
        assert pops1.Keys == pops.Keys;
        UpdatedPrefixStep(keys, FirstMissing(rest, pops.Keys), pops, g, m);
        r
  }

  /**
   * `SeasonSystem.apply(context)`: producers listed in the first level's
   * `populationMap` get the current season's growth and mortality
   * multipliers; nothing but the populations changes.
   */
  function Apply(ctx: Context): (r: Step<Context>)
    ensures r.state.(populations := ctx.populations) == ctx
    ensures r.state.populations.Keys == ctx.populations.Keys
    ensures |ctx.trophicLevels| == 0 ==> r == Step(ctx, Some(MissingProducerLevel))
    ensures |ctx.trophicLevels| > 0 ==>
      var keys := ctx.trophicLevels[0].populationMap;
      var g := ModifierOr1(GrowthModifiers, ContextSeason(ctx));
      var m := ModifierOr1(MortalityModifiers, ContextSeason(ctx));
      && (r.thrown.None? <==> forall i :: 0 <= i < |keys| ==> StrKey(keys[i]) in ctx.populations)
      && (r.thrown.None? ==> forall k :: k in ctx.populations ==>
            r.state.populations[k] == if AmongFirst(keys, |keys|, k) then SeasonStep(ctx.populations[k], g, m) else ctx.populations[k])
      && (forall k :: k in ctx.populations && !AmongFirst(keys, |keys|, k) ==> r.state.populations[k] == ctx.populations[k])
  {
    if |ctx.trophicLevels| == 0 then Step(ctx, Some(MissingProducerLevel))
    else
      var season := ContextSeason(ctx);
      var u := UpdateProducers(
        ctx.trophicLevels[0].populationMap, ctx.populations,
        ModifierOr1(GrowthModifiers, season), ModifierOr1(MortalityModifiers, season));
      Step(ctx.(populations := u.state), u.thrown)
  }

  /** A context in round 1 with one producer key "Grass", as the unit tests set it up. */
  function GrassContext(pops: Registry): Context {
    var producers := TrophicLevel("Producers", 0, [], 1.0, ["Grass"]);
    Context(1, 3, pops, [producers], [], [], false, None, None)
  }

  /**
   * In spring a producer of 100 with rates 0.1 and 0.05 grows by 1.5 x 10%
   * to 115 and then loses 0.5 x 5% of that, ending at 112.125; without a
   * population for "Grass" the system throws naming the producer.
   */
  lemma SpringExample()
    ensures var pops := map[StrKey("Grass") := Population(StrKey("Grass"), 100.0, 0.1, 0.05)];
      var r := Apply(GrassContext(pops));
      r.thrown.None? && r.state.populations[StrKey("Grass")].size == 112.125
    ensures Apply(GrassContext(map[])).thrown == Some(ProducerNotFound("Grass"))
  {
    var pops := map[StrKey("Grass") := Population(StrKey("Grass"), 100.0, 0.1, 0.05)];
    var ctx := GrassContext(pops);
    assert ContextSeason(ctx) == Some(Spring) by {
      assert (1 - 1) / 3 == 0;
    }
    var keys := ctx.trophicLevels[0].populationMap;
    assert keys[0] == "Grass";
    assert AmongFirst(keys, |keys|, StrKey("Grass"));
    var r := Apply(ctx);
    assert r.thrown.None?;
    assert r.state.populations[StrKey("Grass")] == SeasonStep(pops[StrKey("Grass")], 1.5, 0.5);
    var empty := GrassContext(map[]);
    var r' := Apply(empty);
    assert r'.thrown.Some?;
  }
}
