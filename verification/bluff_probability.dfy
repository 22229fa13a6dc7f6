/** The bluff probability: a base chance set by the aggression level,
    scaled by the SUM of four situational modifiers and clamped into
    [0.05, 0.95]. Floats are modelled as exact reals. */
module BluffProbability {
  import opened Vectors

  /** The five inputs of BluffProbabilityCalculator. */
  datatype Situation = Situation(
    opponentProfile: string,
    handStrength: real,
    potOdds: real,
    aggressionLevel: real,
    gameStage: string)

  /** _base_bluff_chance */
  function BaseBluffChance(s: Situation): real {
    MaxReal(0.1, MinReal(0.4 + s.aggressionLevel, 0.8))
  }

  /** _opponent_modifier: exact, case-sensitive string match. */
  function OpponentModifier(profile: string): real {
    if profile == "aggressive" then 0.8
    else if profile == "passive" then 1.2
    else if profile == "tight" then 1.1
    else if profile == "loose" then 0.9
    else 1.0
  }

  /** _hand_strength_modifier */
  function HandStrengthModifier(strength: real): real {
    if strength > 0.8 then 0.5
    else if strength < 0.3 then 1.5
    else 1.0
  }

  /** _pot_odds_modifier */
  function PotOddsModifier(odds: real): real {
    if odds < 0.2 then 1.3
    else if odds > 0.5 then 0.8
    else 1.0
  }

  /** _game_stage_modifier */
  function GameStageModifier(stage: string): real {
    if stage == "pre-flop" then 0.9
    else if stage == "flop" then 1.1
    else if stage == "turn" then 1.2
    else if stage == "river" then 1.4
    else 1.0
  }

  function ModifierSum(s: Situation): real {
    OpponentModifier(s.opponentProfile) + HandStrengthModifier(s.handStrength)
      + PotOddsModifier(s.potOdds) + GameStageModifier(s.gameStage)
  }

  /** The value before clipping. */
  function Unclipped(s: Situation): real {
    BaseBluffChance(s) * ModifierSum(s)
  }

  /** The clip into [0.05, 0.95]. */
  function Clip(p: real): real {
    MinReal(MaxReal(p, 0.05), 0.95)
  }

  /** The base chance scaled by the modifier sum, then clipped. */
  function Combine(base: real, modifiers: real): real {
    Clip(base * modifiers)
  }

  /** calculate_bluff_probability */
  function CalculateBluffProbability(s: Situation): real {
    Combine(BaseBluffChance(s), ModifierSum(s))
  }

  /** The base chance is 0.4 + aggression clamped into [0.1, 0.8]. */
  lemma BaseIsClampedAggression(s: Situation)
    ensures 0.1 <= BaseBluffChance(s) <= 0.8
    ensures 0.1 <= 0.4 + s.aggressionLevel <= 0.8 ==> BaseBluffChance(s) == 0.4 + s.aggressionLevel
    ensures 0.4 + s.aggressionLevel < 0.1 ==> BaseBluffChance(s) == 0.1
    ensures 0.4 + s.aggressionLevel > 0.8 ==> BaseBluffChance(s) == 0.8
  {
  }

  /** Each modifier takes one of its listed values, so their sum lies
      between 3.0 and 5.4. */
  lemma ModifierSumRange(s: Situation)
    ensures OpponentModifier(s.opponentProfile) in {0.8, 1.2, 1.1, 0.9, 1.0}
    ensures HandStrengthModifier(s.handStrength) in {0.5, 1.5, 1.0}
    ensures PotOddsModifier(s.potOdds) in {1.3, 0.8, 1.0}
    ensures GameStageModifier(s.gameStage) in {0.9, 1.1, 1.2, 1.4, 1.0}
    ensures 3.0 <= ModifierSum(s) <= 5.4
  {
  }

  /** The result is the pre-clip value clamped into [0.05, 0.95]: inside
      the interval it is untouched, outside it is the nearer bound. */
  lemma ProbabilityIsClamped(s: Situation)
    ensures 0.05 <= CalculateBluffProbability(s) <= 0.95
    ensures 0.05 <= Unclipped(s) <= 0.95 ==> CalculateBluffProbability(s) == Unclipped(s)
    ensures Unclipped(s) > 0.95 ==> CalculateBluffProbability(s) == 0.95
    ensures Unclipped(s) < 0.05 ==> CalculateBluffProbability(s) == 0.05
  {
  }

  /** Since the base is at least 0.1 and the modifiers add up to at least
      3.0, the lower clip at 0.05 never takes effect: the probability is
      always at least 0.3. */
  lemma LowerClipNeverBinds(s: Situation)
    ensures Unclipped(s) >= 0.3
    ensures CalculateBluffProbability(s) >= 0.3
  {
    BaseIsClampedAggression(s);
    ModifierSumRange(s);
    MulAtLeast(BaseBluffChance(s), 0.1, ModifierSum(s), 3.0);
  }

  lemma MulAtLeast(a: real, a0: real, b: real, b0: real)
    requires a >= a0 >= 0.0 && b >= b0 >= 0.0
    ensures a * b >= a0 * b0
  {
    assert a * b - a0 * b0 == (a - a0) * b + a0 * (b - b0);
  }

  /** The combination grows with both factors while they are not
      negative. */
  lemma CombineIsMonotone(b0: real, b: real, m0: real, m: real)
    requires 0.0 <= b0 <= b && 0.0 <= m0 <= m
    ensures Combine(b0, m0) <= Combine(b, m)
  {
    MulAtLeast(b, b0, m, m0);
  }

  /** More aggression never lowers the bluff probability. */
  lemma MoreAggressionBluffsMore(s: Situation, aggression: real)
    requires s.aggressionLevel <= aggression
    ensures CalculateBluffProbability(s) <= CalculateBluffProbability(s.(aggressionLevel := aggression))
  {
    var t := s.(aggressionLevel := aggression);
    MoreAggressionRaisesBase(s, aggression);
    CombineIsMonotone(BaseBluffChance(s), BaseBluffChance(t), ModifierSum(s), ModifierSum(t));
  }

  lemma MoreAggressionRaisesBase(s: Situation, aggression: real)
    requires s.aggressionLevel <= aggression
    ensures 0.0 <= BaseBluffChance(s) <= BaseBluffChance(s.(aggressionLevel := aggression))
    ensures 0.0 <= ModifierSum(s) == ModifierSum(s.(aggressionLevel := aggression))
  {
    ModifierSumRange(s);
  }

  /** A stronger hand never raises the bluff probability. */
  lemma StrongerHandBluffsLess(s: Situation, strength: real)
    requires s.handStrength <= strength
    ensures CalculateBluffProbability(s.(handStrength := strength)) <= CalculateBluffProbability(s)
  {
    var t := s.(handStrength := strength);
    StrongerHandLowersModifiers(s, strength);
    BaseIsClampedAggression(s);
    CombineIsMonotone(BaseBluffChance(t), BaseBluffChance(s), ModifierSum(t), ModifierSum(s));
  }

  lemma StrongerHandLowersModifiers(s: Situation, strength: real)
    requires s.handStrength <= strength
    ensures 0.0 <= ModifierSum(s.(handStrength := strength)) <= ModifierSum(s)
    ensures BaseBluffChance(s.(handStrength := strength)) == BaseBluffChance(s)
  {
    ModifierSumRange(s.(handStrength := strength));
  }

  /** The labels are matched case-sensitively: the capitalised opponent
      types ("Aggressive", "Tight", "Passive", "Loose", "Unknown") all get
      the neutral modifier. */
  lemma CapitalisedProfilesAreNeutral()
    ensures OpponentModifier("Aggressive") == 1.0
    ensures OpponentModifier("Tight") == 1.0
    ensures OpponentModifier("Passive") == 1.0
    ensures OpponentModifier("Loose") == 1.0
    ensures OpponentModifier("Unknown") == 1.0
  {
  }

  /** The worked example: aggression 0.7 gives base 0.8, the modifiers add
      up to 0.8 + 1.5 + 1.0 + 1.4 = 4.7, and 0.8 * 4.7 = 3.76 clips to
      0.95. */
  lemma WorkedExample()
    ensures var s := Situation("aggressive", 0.2, 0.3, 0.7, "river");
            && BaseBluffChance(s) == 0.8
            && ModifierSum(s) == 4.7
            && Unclipped(s) == 3.76
            && CalculateBluffProbability(s) == 0.95
  {
  }
}
