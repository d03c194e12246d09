/**
 * DisasterSystem.jsx: resolving a player's chosen disaster action, the popup
 * disaster mode, and the legacy yearly disaster that removes a fraction of
 * every listed population. `Math.random()` draws are parameters.
 */
module DisasterSystem {
  import opened Wrappers
  import opened JsNumbers
  import opened Populations
  import opened GameContexts
  import opened Disasters

  /** The two fields the system object keeps between rounds. */
  datatype Memory = Memory(lastDisasterRound: int, roundsPerYear: int)

  /** `new DisasterSystem()`: no disaster yet, rounds per year not yet known. */
  const Initial: Memory := Memory(0, 0)

  /** The state after the system ran: its own memory and the context. */
  datatype Outcome = Outcome(memory: Memory, context: Context)

  // ---------------------------------------------------------------------------
  // Resolving a disaster action
  // ---------------------------------------------------------------------------

  function MaxZero(n: int): (r: int)
    ensures r >= 0 && r >= n
    ensures r == n || r == 0
  {
    if n < 0 then 0 else n
  }

  /** `Math.max(0, Math.round(current + (deltaPopulation || 0)))`. */
  function NextSize(current: real, delta: Option<int>): (n: int)
    ensures n >= 0
    ensures n > 0 ==> n as real - 1.0 / 2.0 <= current + delta.GetOr(0) as real < n as real + 1.0 / 2.0
    ensures n == 0 <==> current + delta.GetOr(0) as real < 1.0 / 2.0
  {
    MaxZero(Round(current + delta.GetOr(0) as real))
  }

  /** On a whole-number population the action simply adds its delta, floored at 0. */
  lemma NextSizeOfWhole(current: int, delta: int)
    ensures NextSize(current as real, Some(delta)) == MaxZero(current + delta)
  {
    RoundUnique((current + delta) as real, current + delta);
  }

  /** `speciesArr.find(s => s.name === name)`, as the index of the first match. */
  function FindByName(species: seq<RegisteredSpecies>, name: string): (r: Option<nat>)
    ensures r.Some? ==> r.value < |species| && species[r.value].name == name
    ensures r.Some? ==> forall j :: 0 <= j < r.value ==> species[j].name != name
    ensures r.None? <==> forall j :: 0 <= j < |species| ==> species[j].name != name
  {
    if |species| == 0 then None
    else if species[0].name == name then Some(0)
    else
      match FindByName(species[1..], name)
      case None => None
      case Some(i) => Some(i + 1)
  }

  /** True when the action names a listed species that has a population to update. */
  predicate Resolves(species: Option<seq<RegisteredSpecies>>, action: Option<DisasterAction>, pops: Registry) {
    action.Some? && species.Some?
    && var found := FindByName(species.value, action.value.target);
       found.Some?
       && (species.value[found.value].legacyPopulation.Some? || StrKey(action.value.target) in pops)
  }

  /** What `applyDisasterActionToSpecies` reports and leaves behind. */
  datatype ActionOutcome = ActionOutcome(applied: bool, species: Option<seq<RegisteredSpecies>>, populations: Registry)

  /**
   * `applyDisasterActionToSpecies(speciesArr, action, populations)`: the first
   * species named by the action has its population set to `NextSize`; a legacy
   * population record on the species takes precedence over the registry entry
   * stored under the species' name. `species` is `None` when not an array.
   */
  function ApplyActionToSpecies(species: Option<seq<RegisteredSpecies>>, action: Option<DisasterAction>, pops: Registry): (o: ActionOutcome)
    ensures o.applied <==> Resolves(species, action, pops)
    ensures !o.applied ==> o.species == species && o.populations == pops
    ensures o.populations.Keys == pops.Keys
    ensures o.species.Some? <==> species.Some?
    ensures o.species.Some? ==>
      (|o.species.value| == |species.value|
       && forall j :: 0 <= j < |species.value| ==> o.species.value[j].name == species.value[j].name)
    // only the record of the first species with the target name is touched
    ensures o.applied ==>
      var s := species.value;
      var i := FindByName(s, action.value.target).value;
      (forall j :: 0 <= j < |s| && j != i ==> o.species.value[j] == s[j])
      && (forall k :: k in pops && k != StrKey(action.value.target) ==> o.populations[k] == pops[k])
    // the legacy record takes precedence; the registry is then left alone
    ensures o.applied ==>
      var s := species.value;
      var i := FindByName(s, action.value.target).value;
      var d := action.value.deltaPopulation;
      if s[i].legacyPopulation.Some? then
        var p := s[i].legacyPopulation.value;
        o.populations == pops
        && o.species.value[i].legacyPopulation == Some(p.(size := NextSize(p.size, d) as real))
      else
        var p := pops[StrKey(action.value.target)];
        o.species == species
        && o.populations[StrKey(action.value.target)] == p.(size := NextSize(p.size, d) as real)
  {
    if action.None? || species.None? then ActionOutcome(false, species, pops)
    else
      var s := species.value;
      var a := action.value;
      match FindByName(s, a.target)
      case None => ActionOutcome(false, species, pops)
      case Some(i) =>
        if s[i].legacyPopulation.Some? then
          var p := s[i].legacyPopulation.value;
          var updated := s[i].(legacyPopulation := Some(p.(size := NextSize(p.size, a.deltaPopulation) as real)));
          ActionOutcome(true, Some(s[i := updated]), pops)
        else if StrKey(a.target) in pops then
          var p := pops[StrKey(a.target)];
          ActionOutcome(true, species, pops[StrKey(a.target) := p.(size := NextSize(p.size, a.deltaPopulation) as real)])
        else ActionOutcome(false, species, pops)
  }

  /** `applyPlayerDisasterAction`: the same operation, exposed on the system. */
  function ApplyPlayerDisasterAction(species: Option<seq<RegisteredSpecies>>, action: Option<DisasterAction>, pops: Registry): (o: ActionOutcome)
    ensures o.applied <==> Resolves(species, action, pops)
    ensures o == ApplyActionToSpecies(species, action, pops)
  {
    ApplyActionToSpecies(species, action, pops)
  }

  /** A registry-backed species list: each name stored under `StrKey(name)`, no legacy records. */
  lemma RegistryActionOnWhole(species: seq<RegisteredSpecies>, action: DisasterAction, pops: Registry, current: int)
    requires exists j :: 0 <= j < |species| && species[j].name == action.target
    requires forall j :: 0 <= j < |species| ==> species[j].legacyPopulation.None?
    requires StrKey(action.target) in pops && pops[StrKey(action.target)].size == current as real
    requires action.deltaPopulation.Some?
    ensures ApplyActionToSpecies(Some(species), Some(action), pops).applied
    ensures ApplyActionToSpecies(Some(species), Some(action), pops).populations[StrKey(action.target)].size
      == MaxZero(current + action.deltaPopulation.value) as real
  {
    var found := FindByName(species, action.target);
    assert found.Some?;
    NextSizeOfWhole(current, action.deltaPopulation.value);
  }

  /** Build Safe Burrows on 200 rabbits gives 245; a delta of -2000 on 1000 grass gives 0. */
  lemma ActionExamples(species: seq<RegisteredSpecies>, pops: Registry)
    requires species == [RegisteredSpecies("Grass", None), RegisteredSpecies("Rabbit", None)]
    requires StrKey("Rabbit") in pops && pops[StrKey("Rabbit")].size == 200.0
    requires StrKey("Grass") in pops && pops[StrKey("Grass")].size == 1000.0
    ensures ApplyActionToSpecies(Some(species), Some(DisasterAction("Build Safe Burrows", "Rabbit", Some(45))), pops)
      .populations[StrKey("Rabbit")].size == 245.0
    ensures ApplyActionToSpecies(Some(species), Some(DisasterAction("Divert Flooding", "Grass", Some(-2000))), pops)
      .populations[StrKey("Grass")].size == 0.0
  {
    assert species[1].name == "Rabbit";
    RegistryActionOnWhole(species, DisasterAction("Build Safe Burrows", "Rabbit", Some(45)), pops, 200);
    assert species[0].name == "Grass";
    RegistryActionOnWhole(species, DisasterAction("Divert Flooding", "Grass", Some(-2000)), pops, 1000);
  }

  // ---------------------------------------------------------------------------
  // Popup mode
  // ---------------------------------------------------------------------------

  /** `Math.random() < 0.4`: the chance a popup disaster appears in a quiet round. */
  const PopupChance: real := 0.4

  /**
   * Popup mode: a disaster on screen is resolved with the pending action (if
   * any) and cleared; otherwise, with probability 0.4, a catalogue disaster is
   * put on screen. `roll` and `pick` are the two `Math.random()` draws.
   */
  function Popup(ctx: Context, roll: real, pick: real): (r: Context)
    requires 0.0 <= pick < 1.0
    // only populations, species and the two disaster fields can change
    ensures r.(populations := ctx.populations, species := ctx.species,
               currentDisaster := ctx.currentDisaster, pendingDisasterAction := ctx.pendingDisasterAction) == ctx
    // resolving: both fields are cleared and only the pending action touches populations
    ensures ctx.currentDisaster.Some? ==> r.currentDisaster.None? && r.pendingDisasterAction.None?
    ensures ctx.currentDisaster.Some? && ctx.pendingDisasterAction.None? ==>
      r.populations == ctx.populations && r.species == ctx.species
    ensures ctx.currentDisaster.Some? && ctx.pendingDisasterAction.Some? ==>
      var o := ApplyActionToSpecies(Some(ctx.species), ctx.pendingDisasterAction, ctx.populations);
      r.populations == o.populations && Some(r.species) == o.species
    // a quiet round: nothing but the on-screen disaster can change
    ensures ctx.currentDisaster.None? ==>
      r.populations == ctx.populations && r.species == ctx.species
      && r.pendingDisasterAction == ctx.pendingDisasterAction
    ensures ctx.currentDisaster.None? ==> (r.currentDisaster.Some? <==> roll < PopupChance)
    ensures ctx.currentDisaster.None? && roll < PopupChance ==>
      r.currentDisaster == Some(Catalogue[PickIndex(pick)].disaster)
  {
    if ctx.currentDisaster.Some? then
      var resolved :=
        if ctx.pendingDisasterAction.Some? then
          var o := ApplyActionToSpecies(Some(ctx.species), ctx.pendingDisasterAction, ctx.populations);
          ctx.(populations := o.populations, species := o.species.value)
        else ctx;
      resolved.(pendingDisasterAction := None, currentDisaster := None)
    else if roll < PopupChance then
      ctx.(currentDisaster := Some(Catalogue[PickIndex(pick)].disaster))
    else ctx
  }

  /** A disaster put on screen is always one of the catalogue's records. */
  lemma PopupPicksCatalogue(ctx: Context, roll: real, pick: real)
    requires 0.0 <= pick < 1.0
    requires ctx.currentDisaster.None?
    ensures Popup(ctx, roll, pick).currentDisaster.Some? ==>
      exists i :: 0 <= i < |Catalogue| && Popup(ctx, roll, pick).currentDisaster.value == Catalogue[i].disaster
  {
    if roll < PopupChance {
      assert Popup(ctx, roll, pick).currentDisaster.value == Catalogue[PickIndex(pick)].disaster;
    }
  }

  /** Two rounds: a disaster appears, then the chosen action resolves it and the screen is clear again. */
  lemma PopupCycle(ctx: Context, roll: real, pick: real, action: DisasterAction, roll2: real, pick2: real)
    requires 0.0 <= pick < 1.0 && 0.0 <= pick2 < 1.0
    requires ctx.currentDisaster.None? && roll < PopupChance
    ensures var shown := Popup(ctx, roll, pick);
      var after := Popup(shown.(pendingDisasterAction := Some(action)), roll2, pick2);
      after.currentDisaster.None? && after.pendingDisasterAction.None?
      && after.populations == ApplyActionToSpecies(Some(ctx.species), Some(action), ctx.populations).populations
  {
    var shown := Popup(ctx, roll, pick);
    assert shown.currentDisaster.Some?;
    assert shown.populations == ctx.populations && shown.species == ctx.species;
  }

  // ---------------------------------------------------------------------------
  // Legacy yearly disasters
  // ---------------------------------------------------------------------------

  /** The share of a trophic level a disaster removes (`impactMap[key]`). */
  datatype LevelImpacts = LevelImpacts(producer: real, herbivore: real, primaryCarnivore: real, secondaryCarnivore: real)

  /** `this.impactMap[key] || {}`. */
  function ImpactsFor(key: string): Option<LevelImpacts> {
    if key == "wildfire" then Some(LevelImpacts(0.5, 0.2, 0.1, 0.05))
    else if key == "drought" then Some(LevelImpacts(0.45, 0.25, 0.1, 0.05))
    else if key == "flood" then Some(LevelImpacts(0.4, 0.3, 0.15, 0.05))
    else if key == "landslide" then Some(LevelImpacts(0.35, 0.2, 0.1, 0.05))
    else if key == "invasive" then Some(LevelImpacts(0.15, 0.35, 0.2, 0.1))
    else None
  }

  /** The fraction used for a level the impact table does not name. */
  const DefaultFraction: real := 0.05

  /** `impacts[level] || 0.05`. */
  function ImpactFraction(key: string, level: string): (f: real)
    ensures 0.0 < f <= 0.5
    ensures ImpactsFor(key).None? ==> f == DefaultFraction
    ensures level !in {"producer", "herbivore", "primaryCarnivore", "secondaryCarnivore"} ==> f == DefaultFraction
  {
    match ImpactsFor(key)
    case None => DefaultFraction
    case Some(t) =>
      var v :=
        if level == "producer" then t.producer
        else if level == "herbivore" then t.herbivore
        else if level == "primaryCarnivore" then t.primaryCarnivore
        else if level == "secondaryCarnivore" then t.secondaryCarnivore
        else 0.0;
      if v != 0.0 then v else DefaultFraction
  }

  /** Every catalogue disaster has an impact row, and producers always suffer most. */
  lemma ImpactTableCoversCatalogue()
    ensures forall i :: 0 <= i < |Catalogue| ==> ImpactsFor(Catalogue[i].key).Some?
    ensures forall i :: 0 <= i < |Catalogue| && Catalogue[i].key != "invasive" ==>
      ImpactFraction(Catalogue[i].key, "producer") > ImpactFraction(Catalogue[i].key, "herbivore")
  {
    CatalogueShape();
    assert Catalogue[0].key == Keys()[0];
    assert Catalogue[1].key == Keys()[1];
    assert Catalogue[2].key == Keys()[2];
    assert Catalogue[3].key == Keys()[3];
    assert Catalogue[4].key == Keys()[4];
  }

  /** `Math.max(0, size - Math.round(size * fraction))`. */
  function ImpactSize(size: real, fraction: real): (r: real)
    ensures r >= 0.0
    ensures size >= 0.0 && fraction >= 0.0 ==> r <= size
  {
    var loss := Round(size * fraction);
    assert size >= 0.0 && fraction >= 0.0 ==> size * fraction >= 0.0 && loss >= 0;
    if size - loss as real < 0.0 then 0.0 else size - loss as real
  }

  /** The impact on one registry entry; an id with no population is skipped. */
  function ImpactOne(id: Key, fraction: real, pops: Registry): (r: Registry)
    ensures r.Keys == pops.Keys
    ensures id in pops ==> r == pops[id := pops[id].(size := ImpactSize(pops[id].size, fraction))]
    ensures id !in pops ==> r == pops
  {
    if id in pops then pops[id := pops[id].(size := ImpactSize(pops[id].size, fraction))] else pops
  }

  /** True when a population record only shrank, never below zero, and kept its identity. */
  predicate Shrunk(before: Population, after: Population) {
    SameIdentity(before, after)
    && (before.size >= 0.0 ==> 0.0 <= after.size <= before.size)
  }

  /** The inner loop: every id of one level, in order, loses its share. */
  function ImpactIds(ids: seq<Key>, fraction: real, pops: Registry): (r: Registry)
    requires fraction >= 0.0
    ensures r.Keys == pops.Keys
    ensures forall k :: k in pops && k !in ids ==> r[k] == pops[k]
    ensures forall k :: k in pops ==> Shrunk(pops[k], r[k])
    ensures forall k :: k in pops && k in ids ==> r[k].size >= 0.0
    decreases |ids|
  {
    if |ids| == 0 then pops
    else ImpactIds(ids[1..], fraction, ImpactOne(ids[0], fraction, pops))
  }

  /** True when no id occurs twice. */
  predicate Distinct(ids: seq<Key>) {
    forall i, j :: 0 <= i < j < |ids| ==> ids[i] != ids[j]
  }

  /** With distinct ids the loop is a pointwise map: each listed entry is impacted exactly once. */
  lemma {:induction false} ImpactIdsPointwise(ids: seq<Key>, fraction: real, pops: Registry)
    requires fraction >= 0.0 && Distinct(ids)
    ensures forall k :: k in pops && k in ids ==>
      ImpactIds(ids, fraction, pops)[k] == pops[k].(size := ImpactSize(pops[k].size, fraction))
    decreases |ids|
  {
    if |ids| > 0 {
      var next := ImpactOne(ids[0], fraction, pops);
      assert Distinct(ids[1..]);
      ImpactIdsPointwise(ids[1..], fraction, next);
      assert ImpactIds(ids, fraction, pops) == ImpactIds(ids[1..], fraction, next);
      forall k | k in pops && k in ids
        ensures ImpactIds(ids, fraction, pops)[k] == pops[k].(size := ImpactSize(pops[k].size, fraction))
      {
        if k == ids[0] {
          assert k !in ids[1..] by {
            forall j | 0 <= j < |ids[1..]| ensures ids[1..][j] != k {
              assert ids[1..][j] == ids[j + 1];
            }
          }
        } else {
          assert k in ids[1..] by {
            var j :| 0 <= j < |ids| && ids[j] == k;
            assert ids[1..][j - 1] == k;
          }
        }
      }
    }
  }

  /** True when some array-valued level lists the id. */
  predicate Listed(levels: seq<LegacyLevel>, id: Key) {
    exists i :: 0 <= i < |levels| && levels[i].speciesIds.Some? && id in levels[i].speciesIds.value
  }

  /** The outer loop over `context.trophicLevel`; entries that are not arrays are skipped. */
  function ImpactLevels(levels: seq<LegacyLevel>, key: string, pops: Registry): (r: Registry)
    ensures r.Keys == pops.Keys
    ensures forall k :: k in pops && !Listed(levels, k) ==> r[k] == pops[k]
    ensures forall k :: k in pops ==> Shrunk(pops[k], r[k])
    ensures forall k :: k in pops && Listed(levels, k) ==> r[k].size >= 0.0
    decreases |levels|
  {
    if |levels| == 0 then pops
    else
      var rest := levels[1..];
      var next :=
        match levels[0].speciesIds
        case None => pops
        case Some(ids) => ImpactIds(ids, ImpactFraction(key, levels[0].level), pops);
      assert forall k :: Listed(levels, k) <==>
        (levels[0].speciesIds.Some? && k in levels[0].speciesIds.value) || Listed(rest, k) by {
        forall k ensures Listed(levels, k) ==>
          (levels[0].speciesIds.Some? && k in levels[0].speciesIds.value) || Listed(rest, k) {
          if Listed(levels, k) {
            var i :| 0 <= i < |levels| && levels[i].speciesIds.Some? && k in levels[i].speciesIds.value;
            if i > 0 { assert rest[i - 1] == levels[i]; }
          }
        }
        forall k ensures Listed(rest, k) ==> Listed(levels, k) {
          if Listed(rest, k) {
            var i :| 0 <= i < |rest| && rest[i].speciesIds.Some? && k in rest[i].speciesIds.value;
            assert levels[i + 1] == rest[i];
          }
        }
      }
      ImpactLevels(rest, key, next)
  }

  /** The chance a due yearly disaster actually strikes (`roll < 0.7`). */
  const StrikeChance: real := 0.7

  /** `if (!this.roundsPerYear) this.roundsPerYear = numRoundsInSeason * 4`. */
  function RoundsPerYear(mem: Memory, ctx: Context): int {
    if mem.roundsPerYear == 0 then ctx.numRoundsInSeason * 4 else mem.roundsPerYear
  }

  /** A full year has passed since the last disaster and the roll is below 0.7. */
  predicate Strikes(mem: Memory, ctx: Context, roll: real) {
    ctx.roundNumber - mem.lastDisasterRound >= RoundsPerYear(mem, ctx) && roll < StrikeChance
  }

  /**
   * Legacy mode: when a disaster strikes, the one picked from the catalogue
   * removes `Math.round(size * fraction)` from every population its level
   * lists, never below 0, and the round is remembered.
   */
  function Legacy(mem: Memory, ctx: Context, roll: real, pick: real): (r: Outcome)
    requires 0.0 <= pick < 1.0
    ensures r.memory.roundsPerYear == RoundsPerYear(mem, ctx)
    ensures r.context.(populations := ctx.populations) == ctx
    ensures !Strikes(mem, ctx, roll) ==> r.context == ctx && r.memory.lastDisasterRound == mem.lastDisasterRound
    ensures Strikes(mem, ctx, roll) ==> r.memory.lastDisasterRound == ctx.roundNumber
    ensures r.context.populations.Keys == ctx.populations.Keys
    ensures forall k :: k in ctx.populations ==> Shrunk(ctx.populations[k], r.context.populations[k])
    ensures forall k :: k in ctx.populations && !Listed(ctx.legacyLevels, k) ==>
      r.context.populations[k] == ctx.populations[k]
  {
    var perYear := RoundsPerYear(mem, ctx);
    if Strikes(mem, ctx, roll) then
      var key := Catalogue[PickIndex(pick)].key;
      Outcome(Memory(ctx.roundNumber, perYear),
              ctx.(populations := ImpactLevels(ctx.legacyLevels, key, ctx.populations)))
    else
      Outcome(Memory(mem.lastDisasterRound, perYear), ctx)
  }

  /** `apply(context)`: popup mode when enabled, otherwise the legacy yearly disaster. */
  function Apply(mem: Memory, ctx: Context, roll: real, pick: real): (r: Outcome)
    requires 0.0 <= pick < 1.0
    ensures ctx.enablePopupDisasters ==> r.memory == mem && r.context == Popup(ctx, roll, pick)
    ensures !ctx.enablePopupDisasters ==>
      r.context.currentDisaster == ctx.currentDisaster && r.context.pendingDisasterAction == ctx.pendingDisasterAction
      && r.context.species == ctx.species
    ensures r.context.roundNumber == ctx.roundNumber && r.context.legacyLevels == ctx.legacyLevels
  {
    if ctx.enablePopupDisasters then Outcome(mem, Popup(ctx, roll, pick))
    else Legacy(mem, ctx, roll, pick)
  }

  /** No population entry ever leaves the registry, and one at 0 or above stays at 0 or above. */
  lemma ApplyKeepsNonNegative(mem: Memory, ctx: Context, roll: real, pick: real)
    requires 0.0 <= pick < 1.0
    requires !ctx.enablePopupDisasters
    requires forall k :: k in ctx.populations ==> ctx.populations[k].size >= 0.0
    ensures var r := Apply(mem, ctx, roll, pick).context.populations;
      r.Keys == ctx.populations.Keys && forall k :: k in r ==> 0.0 <= r[k].size <= ctx.populations[k].size
  {
    var r := Apply(mem, ctx, roll, pick).context.populations;
    forall k | k in r ensures 0.0 <= r[k].size <= ctx.populations[k].size {
      assert Shrunk(ctx.populations[k], r[k]);
    }
  }

  /** A disaster strikes at most once a year: right after one, the next is not due for `RoundsPerYear` rounds. */
  lemma NoSecondStrikeWithinYear(mem: Memory, ctx: Context, roll: real, pick: real, later: Context, roll2: real)
    requires 0.0 <= pick < 1.0
    requires ctx.numRoundsInSeason > 0 && later.numRoundsInSeason == ctx.numRoundsInSeason
    requires Strikes(mem, ctx, roll)
    requires ctx.roundNumber < later.roundNumber < ctx.roundNumber + RoundsPerYear(mem, ctx)
    ensures !Strikes(Legacy(mem, ctx, roll, pick).memory, later, roll2)
  {
    var m := Legacy(mem, ctx, roll, pick).memory;
    assert RoundsPerYear(mem, ctx) > 0 by {
      if mem.roundsPerYear == 0 {
        assert RoundsPerYear(mem, ctx) == ctx.numRoundsInSeason * 4;
      } else {
        assert ctx.roundNumber - mem.lastDisasterRound >= mem.roundsPerYear;
      }
    }
    assert m.roundsPerYear == RoundsPerYear(mem, ctx) && RoundsPerYear(m, later) == m.roundsPerYear;
  }

  // ---------------------------------------------------------------------------
  // The mock context of the disaster tests
  // ---------------------------------------------------------------------------

  /** Round 4, one round per season, ids 1..3 listed as producer, herbivore and primary carnivore. */
  function MockContext(a: Population, b: Population, c: Population): Context {
    Context(4, 1, map[NumKey(1) := a, NumKey(2) := b, NumKey(3) := c], [], [],
            [LegacyLevel("producer", Some([NumKey(1)])),
             LegacyLevel("herbivore", Some([NumKey(2)])),
             LegacyLevel("primaryCarnivore", Some([NumKey(3)]))],
            false, None, None)
  }

  /** A fresh system is due on round 4 of a one-round season. */
  lemma MockIsDue(a: Population, b: Population, c: Population, roll: real)
    ensures Strikes(Initial, MockContext(a, b, c), roll) <==> roll < StrikeChance
  {
  }

  /** A roll of 0.9 leaves 100, 50 and 20 untouched. */
  lemma HighRollExample(a: Population, b: Population, c: Population, pick: real)
    requires 0.0 <= pick < 1.0
    requires a.size == 100.0 && b.size == 50.0 && c.size == 20.0
    ensures var r := Apply(Initial, MockContext(a, b, c), 0.9, pick).context.populations;
      r[NumKey(1)].size == 100.0 && r[NumKey(2)].size == 50.0 && r[NumKey(3)].size == 20.0
  {
    assert !Strikes(Initial, MockContext(a, b, c), 0.9);
  }

  /** One level holding one id applies that level's fraction to it. */
  lemma SingleIdImpact(id: Key, fraction: real, pops: Registry)
    requires fraction >= 0.0 && id in pops
    ensures ImpactIds([id], fraction, pops) == pops[id := pops[id].(size := ImpactSize(pops[id].size, fraction))]
  {
    assert ImpactIds([id], fraction, pops) == ImpactIds([id][1..], fraction, ImpactOne(id, fraction, pops));
    assert [id][1..] == [];
  }

  /** A level listing a single id with a population impacts exactly that entry, then the rest run. */
  lemma LevelStep(level: LegacyLevel, rest: seq<LegacyLevel>, key: string, id: Key, pops: Registry)
    requires level.speciesIds == Some([id]) && id in pops
    ensures ImpactLevels([level] + rest, key, pops)
      == ImpactLevels(rest, key, pops[id := pops[id].(size := ImpactSize(pops[id].size, ImpactFraction(key, level.level)))])
  {
    assert ([level] + rest)[1..] == rest;
    SingleIdImpact(id, ImpactFraction(key, level.level), pops);
  }

  /** Three single-id levels over three distinct registry entries: each entry takes its own level's share. */
  lemma ThreeLevelImpact(l1: LegacyLevel, l2: LegacyLevel, l3: LegacyLevel, key: string,
                         k1: Key, k2: Key, k3: Key, pops: Registry)
    requires l1.speciesIds == Some([k1]) && l2.speciesIds == Some([k2]) && l3.speciesIds == Some([k3])
    requires k1 in pops && k2 in pops && k3 in pops && k1 != k2 && k1 != k3 && k2 != k3
    ensures var r := ImpactLevels([l1, l2, l3], key, pops);
      r[k1].size == ImpactSize(pops[k1].size, ImpactFraction(key, l1.level))
      && r[k2].size == ImpactSize(pops[k2].size, ImpactFraction(key, l2.level))
      && r[k3].size == ImpactSize(pops[k3].size, ImpactFraction(key, l3.level))
  {
    var p1 := pops[k1 := pops[k1].(size := ImpactSize(pops[k1].size, ImpactFraction(key, l1.level)))];
    var p2 := p1[k2 := p1[k2].(size := ImpactSize(p1[k2].size, ImpactFraction(key, l2.level)))];
    var p3 := p2[k3 := p2[k3].(size := ImpactSize(p2[k3].size, ImpactFraction(key, l3.level)))];
    assert [l1, l2, l3] == [l1] + ([l2] + ([l3] + []));
    LevelStep(l1, [l2] + ([l3] + []), key, k1, pops);
    LevelStep(l2, [l3] + [], key, k2, p1);
    LevelStep(l3, [], key, k3, p2);
    assert ImpactLevels([], key, p3) == p3;
  }

  /** The three-level mock registry after a disaster with the given key. */
  lemma MockImpact(a: Population, b: Population, c: Population, key: string)
    ensures var m := MockContext(a, b, c);
      var r := ImpactLevels(m.legacyLevels, key, m.populations);
      r[NumKey(1)].size == ImpactSize(a.size, ImpactFraction(key, "producer"))
      && r[NumKey(2)].size == ImpactSize(b.size, ImpactFraction(key, "herbivore"))
      && r[NumKey(3)].size == ImpactSize(c.size, ImpactFraction(key, "primaryCarnivore"))
  {
    var m := MockContext(a, b, c);
    ThreeLevelImpact(m.legacyLevels[0], m.legacyLevels[1], m.legacyLevels[2], key,
                     NumKey(1), NumKey(2), NumKey(3), m.populations);
    assert m.legacyLevels == [m.legacyLevels[0], m.legacyLevels[1], m.legacyLevels[2]];
  }

  /** A roll of 0.5 with a pick of 0 brings wildfire: 100, 50 and 20 become 50, 40 and 18. */
  lemma WildfireExample(a: Population, b: Population, c: Population)
    requires a.size == 100.0 && b.size == 50.0 && c.size == 20.0
    ensures var r := Apply(Initial, MockContext(a, b, c), 0.5, 0.0);
      r.context.populations[NumKey(1)].size == 50.0
      && r.context.populations[NumKey(2)].size == 40.0
      && r.context.populations[NumKey(3)].size == 18.0
      && r.memory == Memory(4, 4)
  {
    assert PickIndex(0.0) == 0;
    var m := MockContext(a, b, c);
    assert Apply(Initial, m, 0.5, 0.0).context.populations == ImpactLevels(m.legacyLevels, "wildfire", m.populations);
    MockImpact(a, b, c, "wildfire");
    WildfireFractions();
    RoundUnique(100.0 * 0.5, 50);
    RoundUnique(50.0 * 0.2, 10);
    RoundUnique(20.0 * 0.1, 2);
  }

  lemma WildfireFractions()
    ensures ImpactFraction("wildfire", "producer") == 0.5
    ensures ImpactFraction("wildfire", "herbivore") == 0.2
    ensures ImpactFraction("wildfire", "primaryCarnivore") == 0.1
  {
  }
}
