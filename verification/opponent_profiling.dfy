/** Opponent profiling: per-opponent action counters, a ratio classifier
    that tries Aggressive, Tight and Passive in that order before falling
    back to Loose, and a table of profiles keyed by player id. */
module OpponentProfiling {
  import opened Wrappers

  /** An opponent's profile (the dictionary get_profile returns). The
      counters are floats in the source that only ever grow by 1, so they
      are whole numbers here. */
  datatype Profile = Profile(
    playerId: string,
    handsPlayed: nat,
    aggressiveness: nat,
    passiveness: nat,
    bluffingFrequency: nat,
    foldFrequency: nat,
    betSizes: seq<real>,
    opponentType: string)

  /** OpponentProfile.__init__ */
  function NewProfile(playerId: string): Profile {
    Profile(playerId, 0, 0, 0, 0, 0, [], "Unknown")
  }

  /** Python truthiness of the optional bet size: present and non-zero. */
  predicate Truthy(betSize: Option<real>) {
    betSize.Some? && betSize.value != 0.0
  }

  /** A ratio above 0.6, as the source computes it. */
  predicate Exceeds(count: nat, handsPlayed: nat)
    requires handsPlayed > 0
  {
    (count as real) / (handsPlayed as real) > 0.6
  }

  /** classify_opponent */
  function ClassifyOpponent(p: Profile): Profile {
    if p.handsPlayed == 0 then p
    else if Exceeds(p.aggressiveness, p.handsPlayed) then p.(opponentType := "Aggressive")
    else if Exceeds(p.foldFrequency, p.handsPlayed) then p.(opponentType := "Tight")
    else if Exceeds(p.passiveness, p.handsPlayed) then p.(opponentType := "Passive")
    else p.(opponentType := "Loose")
  }

  /** update_profile: one more hand, at most one counter bumped, then
      reclassify. */
  function UpdateProfile(p: Profile, action: string, betSize: Option<real>): Profile {
    ClassifyOpponent(RecordAction(p, action, betSize))
  }

  /** The counting half of update_profile, before the reclassification. */
  function RecordAction(p: Profile, action: string, betSize: Option<real>): Profile {
    var q := p.(handsPlayed := p.handsPlayed + 1);
    if action == "raise" then q.(aggressiveness := q.aggressiveness + 1)
    else if action == "fold" then q.(foldFrequency := q.foldFrequency + 1)
    else if action == "bluff" then q.(bluffingFrequency := q.bluffingFrequency + 1)
    else if action == "check" then q.(passiveness := q.passiveness + 1)
    else if action == "bet" && Truthy(betSize) then q.(betSizes := q.betSizes + [betSize.value])
    else q
  }

  /** The counted actions never outnumber the hands played. */
  predicate Valid(p: Profile) {
    p.aggressiveness + p.foldFrequency + p.bluffingFrequency + p.passiveness <= p.handsPlayed
  }

  /** The four labels a classified opponent can carry. */
  predicate IsLabel(t: string) {
    t == "Aggressive" || t == "Tight" || t == "Passive" || t == "Loose"
  }

  /** A fresh profile is valid, has no hands, no bets and type "Unknown". */
  lemma NewProfileIsEmpty(playerId: string)
    ensures var p := NewProfile(playerId);
            && Valid(p) && p.handsPlayed == 0 && p.betSizes == [] && p.opponentType == "Unknown"
            && p.aggressiveness == p.passiveness == p.bluffingFrequency == p.foldFrequency == 0
  {
  }

  /** "count / hands > 0.6" is the whole-number test 5 * count > 3 * hands. */
  lemma ExceedsIsIntegerTest(count: nat, handsPlayed: nat)
    requires handsPlayed > 0
    ensures Exceeds(count, handsPlayed) <==> 5 * count > 3 * handsPlayed
  {
    var c, h := count as real, handsPlayed as real;
    var q := c / h;
    assert q * h == c;
    assert (5 * count) as real == 5.0 * c && (3 * handsPlayed) as real == 3.0 * h;
    assert 5.0 * (0.6 * h) == 3.0 * h;
    if q > 0.6 {
      ScaleStrict(0.6, q, h);
      assert 0.6 * h < c;
    } else {
      ScaleStrict(q, 0.6, h);
      assert c <= 0.6 * h;
    }
  }

  lemma ScaleStrict(a: real, b: real, c: real)
    requires a <= b && c > 0.0
    ensures a * c <= b * c
    ensures a < b ==> a * c < b * c
  {
    assert b * c - a * c == (b - a) * c;
  }

  /** Classification changes nothing before the first hand; afterwards it
      sets only the type, to the first of Aggressive, Tight, Passive whose
      ratio is above 0.6, or Loose. */
  lemma ClassifyCharacterized(p: Profile)
    ensures p.handsPlayed == 0 ==> ClassifyOpponent(p) == p
    ensures p.handsPlayed > 0 ==>
              var h := p.handsPlayed;
              ClassifyOpponent(p) == p.(opponentType :=
                if 5 * p.aggressiveness > 3 * h then "Aggressive"
                else if 5 * p.foldFrequency > 3 * h then "Tight"
                else if 5 * p.passiveness > 3 * h then "Passive"
                else "Loose")
  {
    if p.handsPlayed > 0 {
      ExceedsIsIntegerTest(p.aggressiveness, p.handsPlayed);
      ExceedsIsIntegerTest(p.foldFrequency, p.handsPlayed);
      ExceedsIsIntegerTest(p.passiveness, p.handsPlayed);
    }
  }

  /** Classifying twice is classifying once. */
  lemma ClassifyIsIdempotent(p: Profile)
    ensures ClassifyOpponent(ClassifyOpponent(p)) == ClassifyOpponent(p)
  {
    ClassifyCharacterized(p);
    ClassifyCharacterized(ClassifyOpponent(p));
  }

  /** In a valid profile at most one ratio exceeds 0.6, so the order in
      which the labels are tried never decides the outcome. */
  lemma AtMostOneRatioExceeds(p: Profile)
    requires Valid(p) && p.handsPlayed > 0
    ensures !(Exceeds(p.aggressiveness, p.handsPlayed) && Exceeds(p.foldFrequency, p.handsPlayed))
    ensures !(Exceeds(p.aggressiveness, p.handsPlayed) && Exceeds(p.passiveness, p.handsPlayed))
    ensures !(Exceeds(p.foldFrequency, p.handsPlayed) && Exceeds(p.passiveness, p.handsPlayed))
  {
    ExceedsIsIntegerTest(p.aggressiveness, p.handsPlayed);
    ExceedsIsIntegerTest(p.foldFrequency, p.handsPlayed);
    ExceedsIsIntegerTest(p.passiveness, p.handsPlayed);
  }

  /** One update: exactly one more hand, the counter named by the action
      (if any) bumped by one, the bet size recorded only for a bet with a
      truthy size, everything else kept, the type reclassified to a label,
      and validity preserved. */
  lemma UpdateProfileEffect(p: Profile, action: string, betSize: Option<real>)
    ensures var r := UpdateProfile(p, action, betSize);
            && r.playerId == p.playerId
            && r.handsPlayed == p.handsPlayed + 1
            && r.aggressiveness == p.aggressiveness + (if action == "raise" then 1 else 0)
            && r.foldFrequency == p.foldFrequency + (if action == "fold" then 1 else 0)
            && r.bluffingFrequency == p.bluffingFrequency + (if action == "bluff" then 1 else 0)
            && r.passiveness == p.passiveness + (if action == "check" then 1 else 0)
            && r.betSizes == p.betSizes + (if action == "bet" && Truthy(betSize) then [betSize.value] else [])
            && IsLabel(r.opponentType)
            && (Valid(p) ==> Valid(r))
  {
    var r := RecordAction(p, action, betSize);
    RecordActionEffect(p, action, betSize);
    ClassifyCharacterized(r);
  }

  /** Recording an action adds one hand and bumps at most one counter. */
  lemma RecordActionEffect(p: Profile, action: string, betSize: Option<real>)
    ensures var r := RecordAction(p, action, betSize);
            && r.playerId == p.playerId
            && r.handsPlayed == p.handsPlayed + 1
            && r.aggressiveness == p.aggressiveness + (if action == "raise" then 1 else 0)
            && r.foldFrequency == p.foldFrequency + (if action == "fold" then 1 else 0)
            && r.bluffingFrequency == p.bluffingFrequency + (if action == "bluff" then 1 else 0)
            && r.passiveness == p.passiveness + (if action == "check" then 1 else 0)
            && r.betSizes == p.betSizes + (if action == "bet" && Truthy(betSize) then [betSize.value] else [])
  {
    if action == "raise" {
      assert action != "fold" && action != "bluff" && action != "check" && action != "bet";
    } else if action == "fold" {
      assert action != "bluff" && action != "check" && action != "bet";
    } else if action == "bluff" {
      assert action != "check" && action != "bet";
    } else if action == "check" {
      assert action != "bet";
    }
  }

  /** Applying a sequence of (action, bet size) pairs in turn. */
  function UpdateAll(p: Profile, actions: seq<(string, Option<real>)>): Profile
    decreases |actions|
  {
    if |actions| == 0 then p
    else UpdateAll(UpdateProfile(p, actions[0].0, actions[0].1), actions[1..])
  }

  /** From a fresh profile, n updates give n hands played, a valid profile,
      and (after at least one) a label. */
  lemma {:induction false} UpdateAllKeepsValid(p: Profile, actions: seq<(string, Option<real>)>)
    requires Valid(p)
    ensures Valid(UpdateAll(p, actions))
    ensures UpdateAll(p, actions).handsPlayed == p.handsPlayed + |actions|
    ensures UpdateAll(p, actions).playerId == p.playerId
    ensures |actions| > 0 ==> IsLabel(UpdateAll(p, actions).opponentType)
    decreases |actions|
  {
    if |actions| > 0 {
      UpdateProfileEffect(p, actions[0].0, actions[0].1);
      UpdateAllKeepsValid(UpdateProfile(p, actions[0].0, actions[0].1), actions[1..]);
    }
  }

  // ---------------------------------------------------------------------
  // OpponentProfiler

  type Profiles = map<string, Profile>

  /** update_opponent: create a fresh profile for an unseen id, then apply
      the update to it. */
  function UpdateOpponent(profiles: Profiles, playerId: string, action: string, betSize: Option<real>): Profiles {
    var current := if playerId in profiles then profiles[playerId] else NewProfile(playerId);
    profiles[playerId := UpdateProfile(current, action, betSize)]
  }

  /** get_opponent_type */
  function GetOpponentType(profiles: Profiles, playerId: string): string {
    if playerId in profiles then profiles[playerId].opponentType else "Unknown"
  }

  /** classify_all_opponents */
  function ClassifyAllOpponents(profiles: Profiles): Profiles {
    map id | id in profiles :: ClassifyOpponent(profiles[id])
  }

  /** Every stored profile is valid. */
  predicate AllValid(profiles: Profiles) {
    forall id :: id in profiles ==> Valid(profiles[id])
  }

  /** update_opponent adds the id if it was missing, updates its profile as
      update_profile does and leaves every other id untouched, whatever the
      table holds; a table of valid profiles stays valid. */
  lemma UpdateOpponentEffect(profiles: Profiles, playerId: string, action: string, betSize: Option<real>)
    ensures var r := UpdateOpponent(profiles, playerId, action, betSize);
            && r.Keys == profiles.Keys + {playerId}
            && (forall id :: id in profiles && id != playerId ==> r[id] == profiles[id])
            && r[playerId] == UpdateProfile(if playerId in profiles then profiles[playerId] else NewProfile(playerId), action, betSize)
            && r[playerId].handsPlayed == (if playerId in profiles then profiles[playerId].handsPlayed else 0) + 1
            && IsLabel(GetOpponentType(r, playerId))
            && (AllValid(profiles) ==> AllValid(r))
  {
    var current := if playerId in profiles then profiles[playerId] else NewProfile(playerId);
    UpdateProfileEffect(current, action, betSize);
  }

  /** An unknown id reads as "Unknown"; a known one reads its stored type. */
  lemma GetOpponentTypeTotal(profiles: Profiles, playerId: string)
    ensures playerId !in profiles ==> GetOpponentType(profiles, playerId) == "Unknown"
    ensures playerId in profiles ==> GetOpponentType(profiles, playerId) == profiles[playerId].opponentType
  {
  }

  /** Reclassifying every profile keeps the ids and changes only types. */
  lemma ClassifyAllKeepsCounters(profiles: Profiles)
    ensures ClassifyAllOpponents(profiles).Keys == profiles.Keys
    ensures forall id :: id in profiles ==>
              ClassifyAllOpponents(profiles)[id] == profiles[id].(opponentType := ClassifyAllOpponents(profiles)[id].opponentType)
    ensures ClassifyAllOpponents(ClassifyAllOpponents(profiles)) == ClassifyAllOpponents(profiles)
  {
    var c := ClassifyAllOpponents(profiles);
    forall id | id in profiles
      ensures c[id] == profiles[id].(opponentType := c[id].opponentType)
      ensures ClassifyOpponent(c[id]) == c[id]
    {
      ClassifyCharacterized(profiles[id]);
      ClassifyIsIdempotent(profiles[id]);
    }
  }

  /** The worked example: raise, fold, bluff give each ratio 1/3, so the
      opponent is classified Loose. */
  lemma WorkedExample()
    ensures var p1 := UpdateOpponent(map[], "player_123", "raise", None);
            var p2 := UpdateOpponent(p1, "player_123", "fold", None);
            var p3 := UpdateOpponent(p2, "player_123", "bluff", None);
            && GetOpponentType(ClassifyAllOpponents(p3), "player_123") == "Loose"
            && GetOpponentType(p1, "player_123") == "Aggressive"
  {
    var p1 := UpdateOpponent(map[], "player_123", "raise", None);
    var p2 := UpdateOpponent(p1, "player_123", "fold", None);
    var p3 := UpdateOpponent(p2, "player_123", "bluff", None);
    ExceedsIsIntegerTest(1, 1);
    ExceedsIsIntegerTest(1, 2);
    ExceedsIsIntegerTest(0, 2);
    ExceedsIsIntegerTest(1, 3);
    ExceedsIsIntegerTest(0, 3);
    assert p3["player_123"] == Profile("player_123", 3, 1, 0, 1, 1, [], "Loose");
  }
}
