/**
 * One species' aggregate population and its two unrounded, unclamped
 * update rules (Population.jsx).
 */
module Populations {
  import opened Wrappers

  /** A JavaScript `Map` key: a numeric species id or a string such as a species name. */
  datatype Key = NumKey(n: int) | StrKey(s: string)

  datatype Population = Population(
    speciesId: Key,
    size: real,
    baseGrowthRate: real,
    baseMortalityRate: real)

  /** The species registry: `Map<key, Population>`. */
  type Registry = map<Key, Population>

  /**
   * `new Population(speciesId, size = 0, baseGrowthRate = 0, baseMortalityRate = 0)`:
   * an omitted argument takes its default of 0.
   */
  function NewPopulation(speciesId: Key, size: Option<real>, growth: Option<real>, mortality: Option<real>): (p: Population)
    ensures p.speciesId == speciesId
    ensures size.Some? ==> p.size == size.value
    ensures size.None? ==> p.size == 0.0
    ensures growth.Some? ==> p.baseGrowthRate == growth.value
    ensures growth.None? ==> p.baseGrowthRate == 0.0
    ensures mortality.Some? ==> p.baseMortalityRate == mortality.value
    ensures mortality.None? ==> p.baseMortalityRate == 0.0
  {
    Population(speciesId, size.GetOr(0.0), growth.GetOr(0.0), mortality.GetOr(0.0))
  }

  function CurrentSize(p: Population): real {
    p.size
  }

  /** True when two records differ at most in `size`. */
  predicate SameIdentity(p: Population, q: Population) {
    p.speciesId == q.speciesId
    && p.baseGrowthRate == q.baseGrowthRate
    && p.baseMortalityRate == q.baseMortalityRate
  }

  /** `updatePopulationByGrowthRate(m)`: `size += size * baseGrowthRate * m`, unrounded. */
  function Grow(p: Population, m: real): (q: Population)
    ensures q.size == p.size * (1.0 + p.baseGrowthRate * m)
    ensures SameIdentity(p, q)
  {
    p.(size := p.size + p.size * p.baseGrowthRate * m)
  }

  /** `updatePopulationByMortalityRate(m)`: `size -= size * baseMortalityRate * m`, with no clamp at 0. */
  function Mortality(p: Population, m: real): (q: Population)
    ensures q.size == p.size * (1.0 - p.baseMortalityRate * m)
    ensures SameIdentity(p, q)
  {
    p.(size := p.size - p.size * p.baseMortalityRate * m)
  }

  /** Both updates are plain scalings of `size`, so their order does not matter. */
  lemma GrowMortalityCommute(p: Population, g: real, d: real)
    ensures Mortality(Grow(p, g), d) == Grow(Mortality(p, d), g)
  {
    var a := 1.0 + p.baseGrowthRate * g;
    var b := 1.0 - p.baseMortalityRate * d;
    calc {
      Mortality(Grow(p, g), d).size;
      (p.size * a) * b;
      { assert (p.size * a) * b == (p.size * b) * a; }
      (p.size * b) * a;
      Grow(Mortality(p, d), g).size;
    }
  }

  /**
   * With no clamp, a non-negative population stays non-negative under the
   * mortality update exactly when it is already 0 or `rate * m <= 1`.
   */
  lemma MortalityNonNegativeIff(p: Population, m: real)
    requires p.size >= 0.0
    ensures Mortality(p, m).size >= 0.0 <==> (p.size == 0.0 || p.baseMortalityRate * m <= 1.0)
  {
    var f := 1.0 - p.baseMortalityRate * m;
    if p.size > 0.0 && f < 0.0 {
      assert p.size * f < 0.0;
    }
  }

  /** A non-negative population stays non-negative under growth when `rate * m >= -1`. */
  lemma GrowNonNegative(p: Population, m: real)
    requires p.size >= 0.0 && p.baseGrowthRate * m >= -1.0
    ensures Grow(p, m).size >= 0.0
  {
  }

  /** The values the unit tests pin for a population of 100 with rates 0.1 and 0.05. */
  lemma UpdateExamples()
    ensures Grow(Population(NumKey(1), 100.0, 0.1, 0.05), 1.0).size == 110.0
    ensures Grow(Population(NumKey(1), 100.0, 0.1, 0.05), 2.0).size == 120.0
    ensures Mortality(Population(NumKey(1), 100.0, 0.1, 0.05), 1.0).size == 95.0
    ensures Mortality(Population(NumKey(1), 100.0, 0.1, 0.05), 2.0).size == 90.0
  {
  }
}
