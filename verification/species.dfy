/**
 * The legacy species record of lib/species.js: a module-level id counter,
 * numeric coercion of the constructor arguments, per-species totals and
 * the four trophic subclasses with their default growth rates.
 */
module SpeciesLib {
  import opened Wrappers
  import opened JsNumbers
  import opened Populations

  /** Which constructor built the record: the base class or one of its four subclasses. */
  datatype Kind = Plain | Producer | PrimaryConsumer | SecondaryConsumer | TertiaryConsumer

  /** The `growthRate` default of each constructor. */
  function DefaultGrowthRate(kind: Kind): real {
    match kind
    case Plain => 0.1
    case Producer => 0.1
    case PrimaryConsumer => 0.05
    case SecondaryConsumer => 0.03
    case TertiaryConsumer => 0.01
  }

  /** The `trophic` property a subclass sets; the base class sets none. */
  function TrophicName(kind: Kind): Option<string> {
    match kind
    case Plain => None
    case Producer => Some("producer")
    case PrimaryConsumer => Some("primary-consumer")
    case SecondaryConsumer => Some("secondary-consumer")
    case TertiaryConsumer => Some("tertiary-consumer")
  }

  /** Higher trophic levels grow more slowly by default, and each subclass names its level. */
  lemma SubclassDefaults()
    ensures DefaultGrowthRate(Producer) > DefaultGrowthRate(PrimaryConsumer)
      > DefaultGrowthRate(SecondaryConsumer) > DefaultGrowthRate(TertiaryConsumer) > 0.0
    ensures forall k: Kind :: TrophicName(k).None? <==> k == Plain
    ensures DefaultGrowthRate(Plain) == DefaultGrowthRate(Producer)
  {
  }

  /** A species instance; `population` is the `_population` record the constructor creates. */
  datatype Species = Species(
    kind: Kind,
    name: string,
    energy: real,
    biomass: real,
    speciesid: int,
    population: Population)

  /** The module-level `_nextSpeciesId` counter. */
  datatype Counter = Counter(next: int)

  /** The counter's value when the module loads. */
  const FirstId: Counter := Counter(1)

  /** The four constructor arguments after `name`, each possibly omitted. */
  datatype SpeciesArgs = SpeciesArgs(name: string, energy: NumArg, biomass: NumArg, population: NumArg, growthRate: NumArg)

  /**
   * `new Kind(name, energy, biomass, population, growthRate)`: the record takes
   * the counter's value as id and the counter moves on by one; every numeric
   * argument goes through `Number(x) || 0`, with the constructor's default
   * when omitted (none for energy and biomass), and the population record
   * is created with mortality rate 0.
   */
  function Create(c: Counter, kind: Kind, args: SpeciesArgs): (r: (Species, Counter))
    ensures r.1.next == c.next + 1
    ensures r.0.speciesid == c.next && r.0.kind == kind && r.0.name == args.name
    ensures r.0.energy == NumberOr0(args.energy, 0.0)
    ensures r.0.biomass == NumberOr0(args.biomass, 0.0)
    ensures r.0.population.speciesId == NumKey(c.next)
    ensures r.0.population.size == NumberOr0(args.population, 0.0)
    ensures r.0.population.baseGrowthRate == NumberOr0(args.growthRate, DefaultGrowthRate(kind))
    ensures r.0.population.baseMortalityRate == 0.0
  {
    var id := c.next;
    var pop := NewPopulation(NumKey(id), Some(NumberOr0(args.population, 0.0)),
                             Some(NumberOr0(args.growthRate, DefaultGrowthRate(kind))), None);
    (Species(kind, args.name, NumberOr0(args.energy, 0.0), NumberOr0(args.biomass, 0.0), id, pop), Counter(id + 1))
  }

  /** Constructing several species in order, threading the counter through. */
  function CreateMany(c: Counter, specs: seq<(Kind, SpeciesArgs)>): (r: (seq<Species>, Counter))
    ensures |r.0| == |specs|
    ensures r.1.next == c.next + |specs|
    ensures forall i :: 0 <= i < |specs| ==> r.0[i] == Create(Counter(c.next + i), specs[i].0, specs[i].1).0
    decreases |specs|
  {
    if |specs| == 0 then ([], c)
    else
      var (first, c1) := Create(c, specs[0].0, specs[0].1);
      var (rest, c2) := CreateMany(c1, specs[1..]);
      ([first] + rest, c2)
  }

  /** Ids handed out in one run are consecutive, strictly increasing and therefore distinct. */
  lemma IdsIncreasing(c: Counter, specs: seq<(Kind, SpeciesArgs)>)
    ensures var made := CreateMany(c, specs).0;
      (forall i :: 0 <= i < |made| ==> made[i].speciesid == c.next + i)
      && (forall i, j :: 0 <= i < j < |made| ==> made[i].speciesid < made[j].speciesid)
      && (forall i :: 0 <= i < |made| ==> made[i].speciesid < CreateMany(c, specs).1.next)
  {
  }

  /** Two separate runs never hand out the same id: the second starts where the first stopped. */
  lemma IdsUniqueAcrossRuns(c: Counter, first: seq<(Kind, SpeciesArgs)>, second: seq<(Kind, SpeciesArgs)>)
    ensures var (a, c1) := CreateMany(c, first);
      var b := CreateMany(c1, second).0;
      forall i, j :: 0 <= i < |a| && 0 <= j < |b| ==> a[i].speciesid < b[j].speciesid
  {
    IdsIncreasing(c, first);
    var (a, c1) := CreateMany(c, first);
    IdsIncreasing(c1, second);
  }

  /** `getTotalBiomass()`: biomass per individual times the current size. */
  function TotalBiomass(s: Species): real {
    s.biomass * CurrentSize(s.population)
  }

  /** `getTotalEnergy()`: energy per individual times the current size. */
  function TotalEnergy(s: Species): real {
    s.energy * CurrentSize(s.population)
  }

  /** The `population` getter. */
  function PopulationSize(s: Species): real {
    CurrentSize(s.population)
  }

  /** The `growthRate` getter. */
  function GrowthRate(s: Species): real {
    s.population.baseGrowthRate
  }

  /** A freshly built species' totals are its per-individual values scaled by its starting population. */
  lemma TotalsOfNew(c: Counter, kind: Kind, args: SpeciesArgs)
    ensures var s := Create(c, kind, args).0;
      TotalBiomass(s) == NumberOr0(args.biomass, 0.0) * NumberOr0(args.population, 0.0)
      && TotalEnergy(s) == NumberOr0(args.energy, 0.0) * NumberOr0(args.population, 0.0)
      && (args.population.NonNumeric? ==> TotalBiomass(s) == 0.0 && TotalEnergy(s) == 0.0)
  {
  }

  /** The totals follow the population: a growth update scales both by the same factor. */
  lemma TotalsFollowGrowth(s: Species, m: real)
    ensures var g := s.(population := Grow(s.population, m));
      TotalBiomass(g) == TotalBiomass(s) * (1.0 + s.population.baseGrowthRate * m)
      && TotalEnergy(g) == TotalEnergy(s) * (1.0 + s.population.baseGrowthRate * m)
  {
    var f := 1.0 + s.population.baseGrowthRate * m;
    assert Grow(s.population, m).size == s.population.size * f;
    assert s.biomass * (s.population.size * f) == (s.biomass * s.population.size) * f;
    assert s.energy * (s.population.size * f) == (s.energy * s.population.size) * f;
  }

  /** `setGrowthRate(r)`: only the population's growth rate changes, coerced by `Number(r) || 0`. */
  function SetGrowthRate(s: Species, r: NumArg): (t: Species)
    ensures GrowthRate(t) == NumberOr0(r, 0.0)
    ensures t.(population := s.population) == s
    ensures t.population.(baseGrowthRate := s.population.baseGrowthRate) == s.population
  {
    s.(population := s.population.(baseGrowthRate := NumberOr0(r, 0.0)))
  }

  /** Setting then reading the growth rate returns the value set; a second set overrides the first. */
  lemma SetGrowthRateRoundTrip(s: Species, a: real, b: NumArg)
    ensures GrowthRate(SetGrowthRate(s, Numeric(a))) == a
    ensures SetGrowthRate(SetGrowthRate(s, Numeric(a)), b) == SetGrowthRate(s, b)
  {
  }

  /** The plain object `toJSON()` returns. */
  datatype SpeciesJson = SpeciesJson(name: string, energy: real, biomass: real, population: real, growthRate: real, speciesid: int)

  /** `toJSON()`: the record's fields, with population and growth rate read through the population record. */
  function ToJson(s: Species): (j: SpeciesJson)
    ensures j.population == PopulationSize(s) && j.growthRate == GrowthRate(s)
    ensures j.name == s.name && j.energy == s.energy && j.biomass == s.biomass && j.speciesid == s.speciesid
  {
    SpeciesJson(s.name, s.energy, s.biomass, s.population.size, s.population.baseGrowthRate, s.speciesid)
  }

  /** The serialized form of a new species is its coerced constructor arguments and its fresh id. */
  lemma ToJsonOfNew(c: Counter, kind: Kind, args: SpeciesArgs)
    ensures ToJson(Create(c, kind, args).0) == SpeciesJson(
      args.name, NumberOr0(args.energy, 0.0), NumberOr0(args.biomass, 0.0),
      NumberOr0(args.population, 0.0), NumberOr0(args.growthRate, DefaultGrowthRate(kind)), c.next)
  {
  }

  /** The serialized population tracks every later population update. */
  lemma ToJsonTracksPopulation(s: Species, m: real)
    ensures ToJson(s.(population := Grow(s.population, m))).population == PopulationSize(s) * (1.0 + GrowthRate(s) * m)
    ensures ToJson(s.(population := Mortality(s.population, m))).population
      == PopulationSize(s) * (1.0 - s.population.baseMortalityRate * m)
  {
  }

  /** A grass producer built with no population or growth rate: 0 individuals, growth 0.1, first id 1. */
  lemma ProducerExample(args: SpeciesArgs)
    requires args == SpeciesArgs("Grass", Numeric(2.0), Numeric(5.0), Absent, Absent)
    ensures var (s, c) := Create(FirstId, Producer, args);
      s.speciesid == 1 && c.next == 2 && PopulationSize(s) == 0.0 && GrowthRate(s) == 0.1
      && TrophicName(s.kind) == Some("producer") && TotalBiomass(s) == 0.0
  {
  }
}
