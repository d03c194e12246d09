/**
 * Trophic levels (Trophic.jsx): a named, ranked bucket of species with the
 * ideal ratio of its score to the next level up.
 */
module Trophic {
  import opened Wrappers

  /** Per-individual biomass and energy, read by the health scoring. */
  datatype SpeciesData = SpeciesData(biomass: real, energy: real)

  /** One own property of a level's `speciesMap` object: key text and value. */
  datatype SpeciesEntry = SpeciesEntry(key: string, data: SpeciesData)

  /** An object's own keys are distinct. */
  predicate DistinctEntryKeys(entries: seq<SpeciesEntry>) {
    forall i, j :: 0 <= i < j < |entries| ==> entries[i].key != entries[j].key
  }

  predicate DistinctStrings(keys: seq<string>) {
    forall i, j :: 0 <= i < j < |keys| ==> keys[i] != keys[j]
  }

  /** A `speciesMap` object, its entries in `Object.entries` order. */
  type SpeciesMap = entries: seq<SpeciesEntry> | DistinctEntryKeys(entries) witness []

  /** The own keys of an object, in enumeration order. */
  type KeyList = keys: seq<string> | DistinctStrings(keys) witness []

  /**
   * A trophic level. `populationMap` is the object whose keys SeasonSystem
   * iterates; the level classes never set it, and iterating an absent
   * property visits nothing, so it is empty unless a caller fills it.
   */
  datatype TrophicLevel = TrophicLevel(
    name: string,
    priority: int,
    speciesMap: SpeciesMap,
    idealRatio: real,
    populationMap: KeyList)

  /** `Object.keys(level.speciesMap)`. */
  function SpeciesKeys(level: TrophicLevel): (keys: seq<string>)
    ensures |keys| == |level.speciesMap|
    ensures forall i :: 0 <= i < |keys| ==> keys[i] == level.speciesMap[i].key
  {
    seq(|level.speciesMap|, i requires 0 <= i < |level.speciesMap| => level.speciesMap[i].key)
  }

  /** `level.idealRatio || 1`: a zero ratio is read as 1. */
  function IdealOr1(level: TrophicLevel): (r: real)
    ensures r != 0.0
    ensures level.idealRatio != 0.0 ==> r == level.idealRatio
    ensures level.idealRatio == 0.0 ==> r == 1.0
  {
    if level.idealRatio == 0.0 then 1.0 else level.idealRatio
  }

  /**
   * `new TrophicLevel(name, priority, speciesMap = {}, idealRatio = 1)`:
   * omitted arguments take their defaults, given ones are stored unchanged.
   */
  function NewTrophicLevel(name: string, priority: int, speciesMap: Option<SpeciesMap>, idealRatio: Option<real>): (t: TrophicLevel)
    ensures t.name == name && t.priority == priority
    ensures t.speciesMap == speciesMap.GetOr([])
    ensures idealRatio.None? ==> t.idealRatio == 1.0
    ensures idealRatio.Some? ==> t.idealRatio == idealRatio.value
    ensures t.populationMap == []
  {
    TrophicLevel(name, priority, speciesMap.GetOr([]), idealRatio.GetOr(1.0), [])
  }

  function Producers(): TrophicLevel {
    NewTrophicLevel("Producers", 0, Some([]), Some(1.0))
  }

  function PrimaryConsumers(): TrophicLevel {
    NewTrophicLevel("Primary Consumers", 1, Some([]), Some(1.0))
  }

  function SecondaryConsumers(): TrophicLevel {
    NewTrophicLevel("Secondary Consumers", 2, Some([]), Some(1.0))
  }

  function TertiaryConsumers(): TrophicLevel {
    NewTrophicLevel("Tertiary Consumers", 3, Some([]), Some(1.0))
  }

  /** The four canonical levels, producer first. */
  function CanonicalLevels(): (levels: seq<TrophicLevel>)
    ensures |levels| == 4
    ensures forall i :: 0 <= i < 4 ==> levels[i].priority == i
    ensures forall i :: 0 <= i < 4 ==> levels[i].idealRatio == 1.0 && levels[i].speciesMap == []
    ensures forall i, j :: 0 <= i < j < 4 ==> levels[i].priority < levels[j].priority
    ensures levels[0].name == "Producers" && levels[1].name == "Primary Consumers"
    ensures levels[2].name == "Secondary Consumers" && levels[3].name == "Tertiary Consumers"
  {
    [Producers(), PrimaryConsumers(), SecondaryConsumers(), TertiaryConsumers()]
  }
}
