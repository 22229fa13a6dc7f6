/** Rule-based pre-flop play: an additive score from a hand table, a
    position table and an opponent table, and three thresholds. */
module PreFlopRules {

  /** POKER_HAND_RANKINGS. The literal lists 'AJs' twice (7, then 5); as in
      a dictionary display the later entry is the one kept. 'A2s-A5s' is a
      key of its own, not a range. */
  const HandRankings: map<string, int> := map[
    "AA" := 10, "KK" := 9, "QQ" := 9, "JJ" := 8, "AKs" := 8, "TT" := 7, "AQs" := 7, "AJs" := 7, "KQs" := 7,
    "99" := 6, "88" := 6, "77" := 5, "AK" := 6, "AQ" := 5, "AJs" := 5, "66" := 4, "55" := 4, "44" := 4,
    "33" := 3, "22" := 3, "A2s-A5s" := 4]

  /** POSITION_RANKINGS */
  const PositionRankings: map<string, int> := map["early" := -1, "middle" := 0, "late" := 1]

  /** OPPONENT_PROFILES */
  const OpponentProfiles: map<string, int> := map["aggressive" := -1, "passive" := 1, "neutral" := 0]

  /** dict.get(key, 0) */
  function Lookup(table: map<string, int>, key: string): int {
    if key in table then table[key] else 0
  }

  function EvaluateHandStrength(hand: string): int { Lookup(HandRankings, hand) }

  function EvaluatePosition(position: string): int { Lookup(PositionRankings, position) }

  function EvaluateOpponentProfile(profile: string): int { Lookup(OpponentProfiles, profile) }

  datatype Action = Fold | Call | Raise

  /** The action's name as returned. */
  function ActionName(a: Action): string {
    match a
    case Fold => "fold"
    case Call => "call"
    case Raise => "raise"
  }

  /** Fold < Call < Raise. */
  function Aggression(a: Action): nat {
    match a
    case Fold => 0
    case Call => 1
    case Raise => 2
  }

  function AdjustedStrength(hand: string, position: string, opponentProfile: string): int {
    EvaluateHandStrength(hand) + EvaluatePosition(position) + EvaluateOpponentProfile(opponentProfile)
  }

  /** The thresholds applied to an adjusted score. */
  function Decide(score: int, potOdds: real): Action {
    if score >= 9 then Raise
    else if score >= 5 && potOdds > 1.5 then Call
    else Fold
  }

  /** make_pre_flop_decision */
  function MakePreFlopDecision(hand: string, position: string, opponentProfile: string, potOdds: real): Action {
    Decide(AdjustedStrength(hand, position, opponentProfile), potOdds)
  }

  /** The duplicated 'AJs' keeps its later value, and a hand inside the
      'A2s-A5s' range but not written as that key scores nothing. */
  lemma HandTableQuirks()
    ensures EvaluateHandStrength("AJs") == 5
    ensures EvaluateHandStrength("A2s-A5s") == 4
    ensures EvaluateHandStrength("A3s") == 0
    ensures EvaluateHandStrength("JTs") == 0
  {
  }

  /** Every listed hand scores between 3 and 10; anything else scores 0. */
  lemma HandStrengthRange(hand: string)
    ensures hand in HandRankings ==> 3 <= EvaluateHandStrength(hand) <= 10
    ensures hand !in HandRankings ==> EvaluateHandStrength(hand) == 0
  {
  }

  /** The position and opponent lookups agree with their tables and give 0
      for anything unlisted. */
  lemma AdjustmentTables(position: string, profile: string)
    ensures EvaluatePosition(position) ==
              if position == "early" then -1 else if position == "late" then 1 else 0
    ensures EvaluateOpponentProfile(profile) ==
              if profile == "aggressive" then -1 else if profile == "passive" then 1 else 0
  {
  }

  /** The adjusted score therefore lies between -2 and 12. */
  lemma AdjustedStrengthRange(hand: string, position: string, profile: string)
    ensures -2 <= AdjustedStrength(hand, position, profile) <= 12
  {
    HandStrengthRange(hand);
    AdjustmentTables(position, profile);
  }

  /** Raise exactly at 9 or more whatever the pot odds; call exactly from 5
      to 8 with pot odds above 1.5; fold otherwise. */
  lemma DecideCharacterized(score: int, potOdds: real)
    ensures Decide(score, potOdds) == Raise <==> score >= 9
    ensures Decide(score, potOdds) == Call <==> 5 <= score < 9 && potOdds > 1.5
    ensures Decide(score, potOdds) == Fold <==> score < 5 || (score < 9 && potOdds <= 1.5)
  {
  }

  /** A higher score or better pot odds never lead to a more passive
      action. */
  lemma DecideIsMonotone(s1: int, s2: int, o1: real, o2: real)
    requires s1 <= s2 && o1 <= o2
    ensures Aggression(Decide(s1, o1)) <= Aggression(Decide(s2, o2))
  {
  }

  /** A later seat or a more passive opponent never leads to a more
      passive action. */
  lemma LaterPositionPlaysLooser(hand: string, profile: string, potOdds: real)
    ensures Aggression(MakePreFlopDecision(hand, "early", profile, potOdds))
              <= Aggression(MakePreFlopDecision(hand, "middle", profile, potOdds))
              <= Aggression(MakePreFlopDecision(hand, "late", profile, potOdds))
    ensures Aggression(MakePreFlopDecision(hand, "middle", "aggressive", potOdds))
              <= Aggression(MakePreFlopDecision(hand, "middle", "neutral", potOdds))
              <= Aggression(MakePreFlopDecision(hand, "middle", "passive", potOdds))
  {
    var h := EvaluateHandStrength(hand);
    var o := EvaluateOpponentProfile(profile);
    AdjustmentTables("early", profile);
    AdjustmentTables("middle", profile);
    AdjustmentTables("late", profile);
    DecideIsMonotone(h - 1 + o, h + o, potOdds, potOdds);
    DecideIsMonotone(h + o, h + 1 + o, potOdds, potOdds);
    AdjustmentTables("middle", "aggressive");
    AdjustmentTables("middle", "neutral");
    AdjustmentTables("middle", "passive");
    DecideIsMonotone(h - 1, h, potOdds, potOdds);
    DecideIsMonotone(h, h + 1, potOdds, potOdds);
  }

  /** The worked example: 'AK' (6) in late position (+1) against a passive
      opponent (+1) scores 8, and pot odds of 2.0 make it a call. */
  lemma WorkedExample()
    ensures AdjustedStrength("AK", "late", "passive") == 8
    ensures MakePreFlopDecision("AK", "late", "passive", 2.0) == Call
    ensures ActionName(MakePreFlopDecision("AK", "late", "passive", 2.0)) == "call"
  {
  }
}
