/**
 * GameEngine.jsx: one round runs the four systems in a fixed order on the
 * shared context and then advances the round counter. A system that throws
 * stops the round: the systems after it do not run, the counter does not
 * move, and the effects of the systems before it remain.
 */
module Engine {
  import opened Wrappers
  import opened Populations
  import opened GameContexts
  import SeasonSystem
  import PlayerActionSystem
  import FoodChainSystem
  import DisasterSystem

  datatype SystemKind = Season | PlayerAction | FoodChain | Disaster

  /** The engine's `systems` array, in the order it runs them. */
  const Systems: seq<SystemKind> := [Season, PlayerAction, FoodChain, Disaster]

  /** Everything a round can change: the context and the state the system objects keep. */
  datatype World = World(ctx: Context, choice: Option<Key>, disasters: DisasterSystem.Memory)

  /** The two `Math.random()` draws the disaster system may take in a round. */
  datatype Draws = Draws(roll: real, pick: real)

  predicate ValidDraws(d: Draws) {
    0.0 <= d.pick < 1.0
  }

  /** `new GameEngine()`: a fresh context, no species chosen, a fresh disaster system. */
  function NewEngine(): (w: World)
    ensures w.ctx == NewContext() && w.choice.None? && w.disasters == DisasterSystem.Initial
  {
    World(NewContext(), None, DisasterSystem.Initial)
  }

  /** True when two worlds agree on everything but populations, species and system state. */
  predicate SameFrame(a: Context, b: Context) {
    a.roundNumber == b.roundNumber && a.numRoundsInSeason == b.numRoundsInSeason
    && a.trophicLevels == b.trophicLevels && a.legacyLevels == b.legacyLevels
    && a.enablePopupDisasters == b.enablePopupDisasters
  }

  /** `system.apply(context)` for one system. */
  function ApplySystem(kind: SystemKind, w: World, draws: Draws): (r: Step<World>)
    requires ValidDraws(draws)
    ensures SameFrame(r.state.ctx, w.ctx)
    ensures r.thrown.Some? ==> kind == Season || kind == PlayerAction
    ensures kind == Season ==> (r.thrown == Some(MissingProducerLevel) <==> |w.ctx.trophicLevels| == 0)
    ensures kind == PlayerAction ==>
      (r.thrown.None? <==> w.choice.Some? && w.choice.value in w.ctx.populations)
      && (r.thrown.Some? ==> r.state == w)
      && (r.thrown.None? ==> r.state.choice.None?)
    ensures kind != PlayerAction ==> r.state.choice == w.choice
    ensures kind != Disaster ==> r.state.disasters == w.disasters
  {
    match kind
    case Season =>
      var s := SeasonSystem.Apply(w.ctx);
      Step(w.(ctx := s.state), s.thrown)
    case PlayerAction =>
      var s := PlayerActionSystem.Apply(PlayerActionSystem.ActionState(w.choice, w.ctx));
      Step(w.(choice := s.state.choice, ctx := s.state.ctx), s.thrown)
    case FoodChain =>
      Step(w.(ctx := FoodChainSystem.Apply(w.ctx)), None)
    case Disaster =>
      var o := DisasterSystem.Apply(w.disasters, w.ctx, draws.roll, draws.pick);
      Step(w.(ctx := o.context, disasters := o.memory), None)
  }

  /** The `for (const system of this.systems)` loop: each system once, in order, until one throws. */
  function ApplyAll(systems: seq<SystemKind>, w: World, draws: Draws): (r: Step<World>)
    requires ValidDraws(draws)
    ensures SameFrame(r.state.ctx, w.ctx)
    ensures r.thrown.Some? ==> exists i :: 0 <= i < |systems| && (systems[i] == Season || systems[i] == PlayerAction)
    decreases |systems|
  {
    if |systems| == 0 then Step(w, None)
    else
      var s := ApplySystem(systems[0], w, draws);
      if s.thrown.Some? then s
      else
        var rest := ApplyAll(systems[1..], s.state, draws);
        assert rest.thrown.Some? ==> exists i :: 0 <= i < |systems| && (systems[i] == Season || systems[i] == PlayerAction) by {
          if rest.thrown.Some? {
            var i :| 0 <= i < |systems[1..]| && (systems[1..][i] == Season || systems[1..][i] == PlayerAction);
            assert systems[i + 1] == systems[1..][i];
          }
        }
        rest
  }

  /** Running two lists of systems back to back is running their concatenation. */
  lemma {:induction false} ApplyAllConcat(a: seq<SystemKind>, b: seq<SystemKind>, w: World, draws: Draws)
    requires ValidDraws(draws)
    ensures var first := ApplyAll(a, w, draws);
      ApplyAll(a + b, w, draws) == if first.thrown.Some? then first else ApplyAll(b, first.state, draws)
    decreases |a|
  {
    if |a| == 0 {
      assert a + b == b;
    } else {
      assert (a + b)[0] == a[0];
      assert (a + b)[1..] == a[1..] + b;
      var s := ApplySystem(a[0], w, draws);
      if s.thrown.None? {
        ApplyAllConcat(a[1..], b, s.state, draws);
      }
    }
  }

  /**
   * `runRound()`: every system in order and then `increaseRound()`; a throw
   * propagates out of the loop, so the counter is not advanced.
   */
  function RunRound(w: World, draws: Draws): (r: Step<World>)
    requires ValidDraws(draws)
    ensures r.thrown.None? ==> r.state.ctx.roundNumber == w.ctx.roundNumber + 1
    ensures r.thrown.Some? ==> r.state.ctx.roundNumber == w.ctx.roundNumber
    ensures r.state.ctx.numRoundsInSeason == w.ctx.numRoundsInSeason && r.state.ctx.trophicLevels == w.ctx.trophicLevels
  {
    var s := ApplyAll(Systems, w, draws);
    if s.thrown.Some? then s
    else Step(s.state.(ctx := IncreaseRound(s.state.ctx)), None)
  }

  /** The four systems run one after another: the round is the composition of the four steps. */
  lemma RoundIsSequence(w: World, draws: Draws)
    requires ValidDraws(draws)
    ensures var s1 := ApplySystem(Season, w, draws);
      var s2 := ApplySystem(PlayerAction, s1.state, draws);
      var s3 := ApplySystem(FoodChain, s2.state, draws);
      var s4 := ApplySystem(Disaster, s3.state, draws);
      RunRound(w, draws) ==
        if s1.thrown.Some? then s1
        else if s2.thrown.Some? then s2
        else Step(s4.state.(ctx := IncreaseRound(s4.state.ctx)), None)
  {
    var s1 := ApplySystem(Season, w, draws);
    var s2 := ApplySystem(PlayerAction, s1.state, draws);
    var s3 := ApplySystem(FoodChain, s2.state, draws);
    var s4 := ApplySystem(Disaster, s3.state, draws);
    assert Systems[1..] == [PlayerAction, FoodChain, Disaster];
    assert Systems[1..][1..] == [FoodChain, Disaster];
    assert Systems[1..][1..][1..] == [Disaster];
    assert Systems[1..][1..][1..][1..] == [];
    assert ApplyAll([Disaster], s3.state, draws) == s4;
    assert ApplyAll([FoodChain, Disaster], s2.state, draws) == s4;
  }

  /** A round completes only with a valid species choice, and it uses the choice up. */
  lemma CompletedRoundConsumesChoice(w: World, draws: Draws)
    requires ValidDraws(draws)
    ensures var r := RunRound(w, draws);
      var s1 := ApplySystem(Season, w, draws).state;
      r.thrown.None? ==>
        s1.choice == w.choice && w.choice.Some? && w.choice.value in s1.ctx.populations
        && r.state.choice.None?
        && RunRound(r.state, draws).thrown.Some?
  {
    RoundIsSequence(w, draws);
    var r := RunRound(w, draws).state;
    RoundIsSequence(r, draws);
  }

  /** With no species chosen, the season step's effects stay and the round stops with `NoSpeciesChoice`. */
  lemma NoChoiceStopsAfterSeason(w: World, draws: Draws)
    requires ValidDraws(draws)
    requires w.choice.None? && ApplySystem(Season, w, draws).thrown.None?
    ensures RunRound(w, draws) == Step(ApplySystem(Season, w, draws).state, Some(NoSpeciesChoice))
  {
    RoundIsSequence(w, draws);
  }

  /** A fresh engine's first round throws at once: the fresh context lists no trophic levels. */
  lemma FreshEngineThrows(draws: Draws)
    requires ValidDraws(draws)
    ensures RunRound(NewEngine(), draws) == Step(NewEngine(), Some(MissingProducerLevel))
  {
    RoundIsSequence(NewEngine(), draws);
  }

  /** The TypeError the player step throws as written: Population has no `applyGrowthRateMultiplier`. */
  const MissingBoost: SimError := NotAFunction("applyGrowthRateMultiplier")

  /**
   * `system.apply(context)` with the player step as written
   * (PlayerActionSystem.ApplyAsWritten): wherever the corrected step throws,
   * it throws the same; wherever the corrected step boosts, it throws the
   * TypeError and changes nothing. The other systems are the same.
   */
  function ApplySystemAsWritten(kind: SystemKind, w: World, draws: Draws): (r: Step<World>)
    requires ValidDraws(draws)
    ensures kind != PlayerAction ==> r == ApplySystem(kind, w, draws)
    ensures kind == PlayerAction ==> r.thrown.Some? && r.state == w
    ensures kind == PlayerAction && ApplySystem(kind, w, draws).thrown.Some? ==> r == ApplySystem(kind, w, draws)
    ensures kind == PlayerAction && ApplySystem(kind, w, draws).thrown.None? ==> r.thrown == Some(MissingBoost)
  {
    if kind == PlayerAction then
      var s := PlayerActionSystem.ApplyAsWritten(PlayerActionSystem.ActionState(w.choice, w.ctx));
      Step(w.(choice := s.state.choice, ctx := s.state.ctx), s.thrown)
    else ApplySystem(kind, w, draws)
  }

  /** The systems loop with the player step as written: any list holding the player step throws. */
  function ApplyAllAsWritten(systems: seq<SystemKind>, w: World, draws: Draws): (r: Step<World>)
    requires ValidDraws(draws)
    ensures SameFrame(r.state.ctx, w.ctx)
    ensures PlayerAction in systems ==> r.thrown.Some?
    decreases |systems|
  {
    if |systems| == 0 then Step(w, None)
    else
      var s := ApplySystemAsWritten(systems[0], w, draws);
      if s.thrown.Some? then s
      else
        assert systems == [systems[0]] + systems[1..];
        ApplyAllAsWritten(systems[1..], s.state, draws)
  }

  /** `runRound()` as written. */
  function RunRoundAsWritten(w: World, draws: Draws): (r: Step<World>)
    requires ValidDraws(draws)
    ensures r.thrown.Some? ==> r.state.ctx.roundNumber == w.ctx.roundNumber
  {
    var s := ApplyAllAsWritten(Systems, w, draws);
    if s.thrown.Some? then s
    else Step(s.state.(ctx := IncreaseRound(s.state.ctx)), None)
  }

  /**
   * As written, no round ever completes: whatever the world and the draws,
   * the round throws and the counter stays. It throws what the corrected
   * round throws when that one throws; where the corrected round completes,
   * it stops at the player step with the TypeError, after the season step.
   */
  lemma AsWrittenRoundNeverCompletes(w: World, draws: Draws)
    requires ValidDraws(draws)
    ensures var r := RunRoundAsWritten(w, draws);
      && r.thrown.Some?
      && r.state.ctx.roundNumber == w.ctx.roundNumber
      && (RunRound(w, draws).thrown.Some? ==> r == RunRound(w, draws))
      && (RunRound(w, draws).thrown.None? ==>
            r == Step(ApplySystem(Season, w, draws).state, Some(MissingBoost)))
  {
    RoundIsSequence(w, draws);
    var s1 := ApplySystem(Season, w, draws);
    assert Systems[1..] == [PlayerAction, FoodChain, Disaster];
    if s1.thrown.None? {
      assert ApplyAllAsWritten(Systems, w, draws) == ApplyAllAsWritten(Systems[1..], s1.state, draws);
    }
  }
}
