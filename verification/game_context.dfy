/**
 * The world state the systems read and write (GameContext.jsx), widened with
 * the fields the systems read but the constructor does not create, and the
 * season derived from the round counter.
 */
module GameContexts {
  import opened Wrappers
  import JsNumbers
  import opened Populations
  import opened Trophic
  import opened Disasters

  datatype Season = Spring | Summer | Fall | Winter

  /** `["Spring", "Summer", "Fall", "Winter"][i]`. */
  function SeasonAt(i: int): Season
    requires 0 <= i < 4
  {
    if i == 0 then Spring else if i == 1 then Summer else if i == 2 then Fall else Winter
  }

  /** An entry of `context.species`: a name, and the population record an older species shape carries. */
  datatype RegisteredSpecies = RegisteredSpecies(name: string, legacyPopulation: Option<Population>)

  /** An entry of the `context.trophicLevel` map: level name to species ids (`None` when not an array). */
  datatype LegacyLevel = LegacyLevel(level: string, speciesIds: Option<seq<Key>>)

  datatype Context = Context(
    roundNumber: int,
    numRoundsInSeason: int,
    populations: Registry,
    trophicLevels: seq<TrophicLevel>,
    species: seq<RegisteredSpecies>,
    legacyLevels: seq<LegacyLevel>,
    enablePopupDisasters: bool,
    currentDisaster: Option<Disaster>,
    pendingDisasterAction: Option<DisasterAction>)

  /** The exceptions a system can throw. */
  datatype SimError =
    | MissingProducerLevel            // `context.trophicLevels[0]` read on an empty or absent list
    | ProducerNotFound(producer: string)
    | NoSpeciesChoice
    | ChoiceNotFound(choice: Key)
    | NotAFunction(methodName: string)

  /** A system's effect: the state after it ran, and the exception it threw, if any. */
  datatype Step<S> = Step(state: S, thrown: Option<SimError>)

  /** The default population record for each id, as the constructor's loop creates them. */
  function DefaultPopulations(ids: seq<int>): (r: Registry)
    ensures forall k :: k in r <==> exists i :: 0 <= i < |ids| && k == NumKey(ids[i])
    ensures forall k :: k in r ==> r[k] == Population(k, 0.0, 0.0, 0.0)
  {
    if |ids| == 0 then map[]
    else
      var k := NumKey(ids[|ids| - 1]);
      DefaultPopulations(ids[..|ids| - 1])[k := NewPopulation(k, None, None, None)]
  }

  /** `new GameContext()`: round 1, three rounds per season, default populations for ids 1, 2 and 3. */
  function NewContext(): (ctx: Context)
    ensures ctx.roundNumber == 1
    ensures ctx.numRoundsInSeason == 3
    ensures ctx.populations.Keys == {NumKey(1), NumKey(2), NumKey(3)}
    ensures forall k :: k in ctx.populations ==> ctx.populations[k].size == 0.0 && ctx.populations[k].speciesId == k
    ensures ctx.trophicLevels == [] && ctx.legacyLevels == []
    ensures !ctx.enablePopupDisasters && ctx.currentDisaster.None? && ctx.pendingDisasterAction.None?
  {
    var pops := DefaultPopulations([1, 2, 3]);
    assert NumKey(1) in pops && NumKey(2) in pops && NumKey(3) in pops by {
      assert NumKey([1, 2, 3][0]) in pops;
      assert NumKey([1, 2, 3][1]) in pops;
      assert NumKey([1, 2, 3][2]) in pops;
    }
    Context(1, 3, pops, [], [], [], false, None, None)
  }

  lemma MulLe(x: int, y: int, b: int)
    requires x <= y && b >= 0
    ensures x * b <= y * b
  {
    assert y * b - x * b == (y - x) * b;
  }

  /** `a / b` on integers is determined by its bracketing multiples. */
  lemma DivUnique(a: int, b: int, q: int)
    requires b > 0 && q * b <= a < q * b + b
    ensures a / b == q
  {
    var r := a / b;
    var m := a % b;
    assert a == r * b + m && 0 <= m < b;
    if r < q {
      assert (r + 1) * b == r * b + b;
      MulLe(r + 1, q, b);
      assert false;
    } else if r > q {
      assert (q + 1) * b == q * b + b;
      MulLe(q + 1, r, b);
      assert false;
    }
  }

  lemma RealMulLe(x: real, y: real, b: real)
    requires x <= y && b >= 0.0
    ensures x * b <= y * b
  {
    assert y * b - x * b == (y - x) * b;
  }

  /** `Math.floor(a / b)` on integers with a positive divisor is Euclidean division. */
  lemma FloorDivOfInts(a: int, b: int)
    requires b > 0
    ensures JsNumbers.FloorDiv(a as real, b as real) == a / b
  {
    var q := a / b;
    var x := a as real / b as real;
    assert x * b as real == a as real;
    assert q * b <= a < q * b + b by {
      assert a == q * b + a % b;
    }
    assert (q * b) as real == q as real * b as real;
    assert ((q + 1) * b) as real == (q as real + 1.0) * b as real;
    if x < q as real {
      RealMulLe(x, q as real, b as real);
      assert false;
    }
    if x >= q as real + 1.0 {
      RealMulLe(q as real + 1.0, x, b as real);
      assert false;
    }
  }

  /**
   * `Math.floor((roundNumber - 1) / numRoundsInSeason) % 4`, or `None` when
   * that is not a finite number (a zero season length).
   */
  function SeasonIndex(roundNumber: int, numRoundsInSeason: int): Option<int> {
    if numRoundsInSeason == 0 then None
    else Some(JsNumbers.JsRem(JsNumbers.FloorDiv((roundNumber - 1) as real, numRoundsInSeason as real), 4))
  }

  /**
   * `determineSeason()`: the season array indexed by the season index;
   * `None` is the `undefined` a negative or non-finite index reads.
   */
  function DetermineSeason(roundNumber: int, numRoundsInSeason: int): (s: Option<Season>)
    ensures roundNumber >= 1 && numRoundsInSeason > 0 ==>
      s == Some(SeasonAt(((roundNumber - 1) / numRoundsInSeason) % 4))
    ensures numRoundsInSeason == 0 ==> s.None?
  {
    var idx := SeasonIndex(roundNumber, numRoundsInSeason);
    assert roundNumber >= 1 && numRoundsInSeason > 0 ==>
      JsNumbers.FloorDiv((roundNumber - 1) as real, numRoundsInSeason as real) == (roundNumber - 1) / numRoundsInSeason
    by {
      if roundNumber >= 1 && numRoundsInSeason > 0 {
        FloorDivOfInts(roundNumber - 1, numRoundsInSeason);
      }
    }
    if idx.Some? && 0 <= idx.value < 4 then Some(SeasonAt(idx.value)) else None
  }

  /** The seasons repeat every four seasons' worth of rounds. */
  lemma SeasonPeriodic(r: int, n: int)
    requires r >= 1 && n > 0
    ensures DetermineSeason(r + 4 * n, n) == DetermineSeason(r, n)
  {
    var q := (r - 1) / n;
    assert q * n <= r - 1 < q * n + n by {
      assert r - 1 == q * n + (r - 1) % n;
    }
    assert (q + 4) * n == q * n + 4 * n;
    DivUnique(r + 4 * n - 1, n, q + 4);
    assert (q + 4) % 4 == q % 4;
  }

  /** The last round of the k-th season lies in season k - 1 (mod 4). */
  lemma SeasonOfLastRound(k: int, n: int)
    requires k >= 1 && n > 0
    ensures DetermineSeason(k * n, n) == Some(SeasonAt((k - 1) % 4))
  {
    assert (k - 1) * n == k * n - n;
    DivUnique(k * n - 1, n, k - 1);
  }

  /** Rounds n, 2n, ..., 5n are Spring, Summer, Fall, Winter, Spring. */
  lemma SeasonExamples(n: int)
    requires n > 0
    ensures DetermineSeason(1 * n, n) == Some(Spring)
    ensures DetermineSeason(2 * n, n) == Some(Summer)
    ensures DetermineSeason(3 * n, n) == Some(Fall)
    ensures DetermineSeason(4 * n, n) == Some(Winter)
    ensures DetermineSeason(5 * n, n) == Some(Spring)
  {
    SeasonOfLastRound(1, n);
    SeasonOfLastRound(2, n);
    SeasonOfLastRound(3, n);
    SeasonOfLastRound(4, n);
    SeasonOfLastRound(5, n);
  }

  function ContextSeason(ctx: Context): Option<Season> {
    DetermineSeason(ctx.roundNumber, ctx.numRoundsInSeason)
  }

  /** `increaseRound()`: the round counter goes up by one and nothing else changes. */
  function IncreaseRound(ctx: Context): (r: Context)
    ensures r.roundNumber == ctx.roundNumber + 1
    ensures r.(roundNumber := ctx.roundNumber) == ctx
  {
    ctx.(roundNumber := ctx.roundNumber + 1)
  }
}
