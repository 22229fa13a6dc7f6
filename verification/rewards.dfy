/** The reinforcement-learning reward: a base value chosen by the outcome
    of the hand, scaled by the pot size. Floats are modelled as exact
    reals. */
module Rewards {
  import opened Wrappers
  import Vectors

  /** The four configured values of RewardCalculator. */
  datatype Calculator = Calculator(winReward: real, losePenalty: real, foldPenalty: real, bluffReward: real)

  /** The two entries of the game-state dictionary that are read; either
      may be missing. */
  datatype GameState = GameState(potSize: Option<real>, bluffSuccess: Option<bool>)

  /** The constructor's defaults. */
  function DefaultCalculator(): (c: Calculator)
    ensures c.winReward > 0.0 > c.losePenalty && c.foldPenalty < 0.0 < c.bluffReward
    ensures c.losePenalty < c.foldPenalty && c.bluffReward < c.winReward
  {
    Calculator(1.0, -1.0, -0.5, 0.5)
  }

  /** calculate_reward */
  function CalculateReward(rc: Calculator, action: string, state: GameState): real {
    if action == "win" then rc.winReward
    else if action == "lose" then rc.losePenalty
    else if action == "fold" then rc.foldPenalty
    else if action == "bluff" && state.bluffSuccess.GetOr(false) then rc.bluffReward
    else 0.0
  }

  /** adjust_for_pot_size */
  function AdjustForPotSize(reward: real, potSize: real): real {
    reward * (1.0 + potSize / 100.0)
  }

  /** calculate_final_reward: a missing pot size counts as 0. */
  function CalculateFinalReward(rc: Calculator, action: string, state: GameState): real {
    AdjustForPotSize(CalculateReward(rc, action, state), state.potSize.GetOr(0.0))
  }

  /** The base reward for each outcome: a bluff earns only when the state
      says it succeeded, and any other action earns nothing. The lose
      penalty is returned as configured, not negated. */
  lemma RewardCharacterized(rc: Calculator, action: string, state: GameState)
    ensures action == "win" ==> CalculateReward(rc, action, state) == rc.winReward
    ensures action == "lose" ==> CalculateReward(rc, action, state) == rc.losePenalty
    ensures action == "fold" ==> CalculateReward(rc, action, state) == rc.foldPenalty
    ensures action == "bluff" ==>
              CalculateReward(rc, action, state) ==
                (if state.bluffSuccess == Some(true) then rc.bluffReward else 0.0)
    ensures action !in {"win", "lose", "fold", "bluff"} ==> CalculateReward(rc, action, state) == 0.0
  {
  }

  /** Scaling by the pot is undone by dividing by the same factor,
      whenever the pot is not exactly -100. */
  lemma AdjustIsInvertible(reward: real, potSize: real)
    requires potSize != -100.0
    ensures AdjustForPotSize(reward, potSize) / (1.0 + potSize / 100.0) == reward
  {
    var f := 1.0 + potSize / 100.0;
    assert AdjustForPotSize(reward, potSize) == reward * f;
    MulDiv(reward, f);
  }

  lemma MulDiv(x: real, f: real)
    requires f != 0.0
    ensures (x * f) / f == x
  {
    assert ((x * f) / f) * f == x * f;
    assert ((x * f) / f - x) * f == 0.0;
  }

  /** An empty pot leaves the reward alone, a zero reward stays zero, and
      for any pot above -100 the sign of the reward is kept. */
  lemma AdjustKeepsSign(reward: real, potSize: real)
    ensures AdjustForPotSize(reward, 0.0) == reward
    ensures AdjustForPotSize(0.0, potSize) == 0.0
    ensures potSize > -100.0 && reward > 0.0 ==> AdjustForPotSize(reward, potSize) > 0.0
    ensures potSize > -100.0 && reward < 0.0 ==> AdjustForPotSize(reward, potSize) < 0.0
  {
    var f := 1.0 + potSize / 100.0;
    if potSize > -100.0 {
      assert f > 0.0;
      if reward > 0.0 { PositiveProduct(reward, f); }
      if reward < 0.0 { PositiveProduct(-reward, f); }
    }
  }

  lemma PositiveProduct(a: real, b: real)
    requires a > 0.0 && b > 0.0
    ensures a * b > 0.0
  {
  }

  /** A larger pot magnifies the reward: it grows a positive reward and
      deepens a negative one. */
  lemma LargerPotMagnifies(reward: real, p1: real, p2: real)
    requires p1 <= p2
    ensures reward >= 0.0 ==> AdjustForPotSize(reward, p1) <= AdjustForPotSize(reward, p2)
    ensures reward <= 0.0 ==> AdjustForPotSize(reward, p2) <= AdjustForPotSize(reward, p1)
  {
    assert AdjustForPotSize(reward, p2) - AdjustForPotSize(reward, p1) == reward * ((p2 - p1) / 100.0);
    if reward >= 0.0 {
      Vectors.NonNegativeProduct(reward, (p2 - p1) / 100.0);
    } else {
      Vectors.NonNegativeProduct(-reward, (p2 - p1) / 100.0);
    }
  }


  /** Without a pot size in the state the final reward is the base
      reward. */
  lemma NoPotMeansBaseReward(rc: Calculator, action: string, state: GameState)
    requires state.potSize.None?
    ensures CalculateFinalReward(rc, action, state) == CalculateReward(rc, action, state)
  {
    AdjustKeepsSign(CalculateReward(rc, action, state), 0.0);
  }

  /** The worked examples: a win in a pot of 100 pays 2.0, a successful
      bluff in a pot of 50 pays 0.75, a loss in a pot of 80 costs 1.8. */
  lemma WorkedExamples()
    ensures CalculateFinalReward(DefaultCalculator(), "win", GameState(Some(100.0), Some(false))) == 2.0
    ensures CalculateFinalReward(DefaultCalculator(), "bluff", GameState(Some(50.0), Some(true))) == 0.75
    ensures CalculateFinalReward(DefaultCalculator(), "lose", GameState(Some(80.0), Some(false))) == -1.8
  {
  }
}
