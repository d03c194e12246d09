/**
 * The ratio-deviation and scoring helpers shared by the food-chain rule and
 * the two ecosystem-health variants (healthCalculateHelperFunctions.jsx),
 * plus the arithmetic mean both health variants end with.
 */
module HealthHelpers {

  /** The band inside which a deviation is not penalised. */
  const DefaultTolerance: real := 0.2

  /** The smallest score an imbalance alone can produce. */
  const PenaltyFloor: real := 0.1

  function Abs(x: real): real {
    if x < 0.0 then -x else x
  }

  function Max(a: real, b: real): real {
    if a < b then b else a
  }

  function Min(a: real, b: real): real {
    if a < b then a else b
  }

  /**
   * `calculateRatioDeviation(a, b, c, e)`: how far the actual ratio `a/b` is
   * from the ideal ratio `c/e`, relative to the ideal ratio. The actual ratio
   * is the ideal one scaled by `1 + d` or by `1 - d`.
   */
  function RatioDeviation(actualNum: real, actualDen: real, idealNum: real, idealDen: real): (d: real)
    requires actualDen != 0.0 && idealDen != 0.0 && idealNum != 0.0
    ensures var ideal := idealNum / idealDen;
      actualNum / actualDen == ideal * (1.0 + d) || actualNum / actualDen == ideal * (1.0 - d)
    ensures idealNum / idealDen > 0.0 ==> d >= 0.0
    ensures idealNum / idealDen > 0.0 ==> (d == 0.0 <==> actualNum / actualDen == idealNum / idealDen)
  {
    var actual := actualNum / actualDen;
    var ideal := idealNum / idealDen;
    Abs(actual - ideal) / ideal
  }

  /** Scaling both parts of the actual ratio by the same positive factor leaves the deviation unchanged. */
  lemma RatioDeviationScaleInvariant(a: real, b: real, c: real, e: real, k: real)
    requires b != 0.0 && e != 0.0 && c != 0.0 && k > 0.0
    ensures RatioDeviation(k * a, k * b, c, e) == RatioDeviation(a, b, c, e)
  {
    assert (k * a) / (k * b) == a / b;
  }

  /**
   * `deviationToScore(deviation, tolerance)`: 1 inside the tolerance band,
   * otherwise `1 - deviation` floored at 0.1.
   */
  function DeviationToScore(deviation: real, tolerance: real): (s: real)
    ensures deviation < tolerance ==> s == 1.0
    ensures s >= PenaltyFloor
    ensures deviation >= 0.0 ==> s <= 1.0
    ensures s == 1.0 <==> (deviation < tolerance || deviation == 0.0)
    ensures tolerance <= deviation <= 0.9 ==> s == 1.0 - deviation
    ensures tolerance <= deviation && 0.9 <= deviation ==> s == PenaltyFloor
  {
    if deviation < tolerance then 1.0 else Max(PenaltyFloor, 1.0 - deviation)
  }

  /** For a fixed non-negative tolerance, a larger deviation never scores higher. */
  lemma DeviationToScoreMonotone(d1: real, d2: real, tolerance: real)
    requires 0.0 <= tolerance && d1 <= d2
    ensures DeviationToScore(d2, tolerance) <= DeviationToScore(d1, tolerance)
  {
  }

  /** `xs.reduce((a, b) => a + b, 0)`, summed left to right. */
  function Sum(xs: seq<real>): real {
    if |xs| == 0 then 0.0 else Sum(xs[..|xs| - 1]) + xs[|xs| - 1]
  }

  predicate AllInUnit(xs: seq<real>) {
    forall i :: 0 <= i < |xs| ==> 0.0 <= xs[i] <= 1.0
  }

  lemma {:induction false} SumBounds(xs: seq<real>)
    requires AllInUnit(xs)
    ensures 0.0 <= Sum(xs) <= |xs| as real
  {
    if |xs| > 0 {
      var init := xs[..|xs| - 1];
      assert AllInUnit(init) by {
        forall i | 0 <= i < |init| ensures 0.0 <= init[i] <= 1.0 {
          assert init[i] == xs[i];
        }
      }
      SumBounds(init);
    }
  }

  lemma {:induction false} SumOfZeros(xs: seq<real>)
    requires forall i :: 0 <= i < |xs| ==> xs[i] == 0.0
    ensures Sum(xs) == 0.0
  {
    if |xs| > 0 {
      var init := xs[..|xs| - 1];
      assert forall i :: 0 <= i < |init| ==> init[i] == xs[i];
      SumOfZeros(init);
    }
  }

  /** The outcome of a health computation: a number, or the NaN JavaScript yields. */
  datatype Health = Health(value: real) | NotANumber

  /** `sum / length`; an empty list gives JavaScript's `0 / 0`, NaN. */
  function Mean(xs: seq<real>): (h: Health)
    ensures h.NotANumber? <==> |xs| == 0
    ensures AllInUnit(xs) && h.Health? ==> 0.0 <= h.value <= 1.0
    ensures (forall i :: 0 <= i < |xs| ==> xs[i] == 0.0) && h.Health? ==> h.value == 0.0
  {
    if |xs| == 0 then NotANumber
    else
      assert AllInUnit(xs) ==> 0.0 <= Sum(xs) / |xs| as real <= 1.0 by {
        if AllInUnit(xs) {
          SumBounds(xs);
        }
      }
      assert (forall i :: 0 <= i < |xs| ==> xs[i] == 0.0) ==> Sum(xs) == 0.0 by {
        if forall i :: 0 <= i < |xs| ==> xs[i] == 0.0 {
          SumOfZeros(xs);
        }
      }
      Health(Sum(xs) / |xs| as real)
  }
}
