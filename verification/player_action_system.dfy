/**
 * PlayerActionSystem (systems/PlayerActionSystem.jsx): one growth boost on
 * the species the player chose, after which the choice is cleared.
 */
module PlayerActionSystem {
  import opened Wrappers
  import opened Populations
  import opened GameContexts

  /** `GROWTH_RATE_MULTIPLIER`. */
  const GrowthRateMultiplier: real := 2.0

  /** The system's own state, `speciesIDChoice`, together with the context it acts on. */
  datatype ActionState = ActionState(choice: Option<Key>, ctx: Context)

  /** `setSpeciesIDChoice(id)`: the choice becomes exactly `id`, replacing any earlier one; the context is not touched. */
  function SetSpeciesIdChoice(s: ActionState, id: Key): (r: ActionState)
    ensures r.choice == Some(id) && r.ctx == s.ctx
  {
    s.(choice := Some(id))
  }

  /**
   * `apply(context)` as written: after both checks pass it calls
   * `population.applyGrowthRateMultiplier`, which Population does not
   * define, so the call throws a TypeError before the choice is reset.
   */
  function ApplyAsWritten(s: ActionState): (r: Step<ActionState>)
    ensures r.state == s
    ensures r.thrown.Some?
  {
    match s.choice
    case None => Step(s, Some(NoSpeciesChoice))
    case Some(k) =>
      if k !in s.ctx.populations then Step(s, Some(ChoiceNotFound(k)))
      else Step(s, Some(NotAFunction("applyGrowthRateMultiplier")))
  }

  /** With a valid choice, the code as written throws instead of boosting: a fresh context and choice 1 show it. */
  lemma AsWrittenThrowsOnValidChoice()
    ensures var s := ActionState(Some(NumKey(1)), NewContext());
      NumKey(1) in s.ctx.populations && ApplyAsWritten(s).thrown == Some(NotAFunction("applyGrowthRateMultiplier"))
  {
  }

  /**
   * `apply(context)` with the boost the code evidently intends: a growth
   * update with multiplier 2 on the chosen population. No choice, or a
   * choice with no population, throws and changes nothing (the choice is
   * kept); on success only the chosen population grows and the choice is
   * cleared.
   */
  function Apply(s: ActionState): (r: Step<ActionState>)
    ensures s.choice.None? ==> r == Step(s, Some(NoSpeciesChoice))
    ensures s.choice.Some? && s.choice.value !in s.ctx.populations ==> r == Step(s, Some(ChoiceNotFound(s.choice.value)))
    ensures s.choice.Some? && s.choice.value in s.ctx.populations ==>
      var k := s.choice.value;
      var before := s.ctx.populations;
      var after := r.state.ctx.populations;
      && r.thrown.None?
      && r.state.choice.None?
      && r.state.ctx.(populations := before) == s.ctx
      && after.Keys == before.Keys
      && after[k].size == before[k].size * (1.0 + before[k].baseGrowthRate * GrowthRateMultiplier)
      && SameIdentity(after[k], before[k])
      && (forall q :: q in before && q != k ==> after[q] == before[q])
  {
    match s.choice
    case None => Step(s, Some(NoSpeciesChoice))
    case Some(k) =>
      if k !in s.ctx.populations then Step(s, Some(ChoiceNotFound(k)))
      else
        var pops := s.ctx.populations;
        Step(ActionState(None, s.ctx.(populations := pops[k := Grow(pops[k], GrowthRateMultiplier)])), None)
  }

  /** A successful boost clears the choice, so a second apply without a new choice throws. */
  lemma AtMostOneBoostPerChoice(s: ActionState)
    requires Apply(s).thrown.None?
    ensures Apply(Apply(s).state).thrown == Some(NoSpeciesChoice)
  {
  }

  /**
   * Choosing a species and then applying boosts exactly that population, or
   * throws `ChoiceNotFound` with nothing changed when it has no population;
   * only the last of several choices counts.
   */
  lemma ChooseThenApply(s: ActionState, earlier: Key, id: Key)
    ensures var chosen := SetSpeciesIdChoice(SetSpeciesIdChoice(s, earlier), id);
      var r := Apply(chosen);
      var before := s.ctx.populations;
      && chosen == SetSpeciesIdChoice(s, id)
      && (id !in before ==> r == Step(chosen, Some(ChoiceNotFound(id))))
      && (id in before ==>
            && r.thrown.None? && r.state.choice.None?
            && r.state.ctx.populations == before[id := Grow(before[id], GrowthRateMultiplier)])
  {
    var chosen := SetSpeciesIdChoice(SetSpeciesIdChoice(s, earlier), id);
    if id in s.ctx.populations {
      var before := s.ctx.populations;
      var after := Apply(chosen).state.ctx.populations;
      assert after.Keys == before[id := Grow(before[id], GrowthRateMultiplier)].Keys;
      assert forall q :: q in after ==> after[q] == before[id := Grow(before[id], GrowthRateMultiplier)][q];
    }
  }

  /** As written, the call after a choice throws either `ChoiceNotFound` or, for a chosen species that exists, the TypeError. */
  lemma ChooseThenApplyAsWritten(s: ActionState, id: Key)
    ensures var r := ApplyAsWritten(SetSpeciesIdChoice(s, id));
      r.state == SetSpeciesIdChoice(s, id)
      && r.thrown == Some(if id in s.ctx.populations then NotAFunction("applyGrowthRateMultiplier") else ChoiceNotFound(id))
  {
  }
}
