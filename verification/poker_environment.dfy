/** The reinforcement-learning poker table: a shuffled deck, two hole cards
    per seat, community cards, per-seat bets and a pot, a current player
    and a betting round. Every random choice the table makes (the shuffle,
    the agent's seat, the raise size, the winner) is passed in. */
module PokerEnvironment {
  import opened Wrappers
  import opened Vectors
  import Cards

  datatype EnvError =
    | NoPlayers              // random.randint(0, num_players - 1) on an empty range
    | EmptyDeck              // list.pop() on an exhausted deck
    | UnknownAction(action: string)

  datatype Env = Env(
    numPlayers: nat,
    deck: seq<Cards.Card>,
    community: seq<Cards.Card>,
    hands: seq<seq<Cards.Card>>,
    pot: int,
    bettingRound: nat,
    agentPosition: nat,
    currentPlayer: nat,
    bets: seq<int>)

  /** What step returns besides the next state. */
  datatype StepResult = StepResult(env: Env, reward: int, done: bool)

  /** get_game_state */
  datatype GameState = GameState(
    agentHand: seq<Cards.Card>,
    communityCards: seq<Cards.Card>,
    pot: int,
    bets: seq<int>,
    bettingRound: nat,
    currentPlayer: nat)

  function SuitName(s: Cards.Suit): string {
    match s
    case Hearts => "Hearts"
    case Diamonds => "Diamonds"
    case Clubs => "Clubs"
    case Spades => "Spades"
  }

  /** The table's card format: "10 of Hearts". */
  function CardName(c: Cards.Card): string {
    Cards.RankText(c.rank) + " of " + SuitName(c.suit)
  }

  // ---------------------------------------------------------------------
  // Flattening

  function Flatten(hs: seq<seq<Cards.Card>>): seq<Cards.Card> {
    if |hs| == 0 then [] else hs[0] + Flatten(hs[1..])
  }

  // ---------------------------------------------------------------------
  // Deck and dealing

  /** create_deck: the rank-major deck shuffled with the given draws. */
  function CreateDeck(draws: seq<nat>): seq<Cards.Card>
    requires Cards.ValidShuffleDraws(52, draws)
  {
    Cards.Shuffle(Cards.RankMajorDeck(), draws)
  }

  /** k successive deck.pop() calls: the remaining deck and the popped
      cards in the order they came off. */
  function PopCards(deck: seq<Cards.Card>, k: nat): Result<(seq<Cards.Card>, seq<Cards.Card>), EnvError>
    decreases k
  {
    if k == 0 then Ok((deck, []))
    else if |deck| == 0 then Err(EmptyDeck)
    else
      var r :- PopCards(deck[..|deck| - 1], k - 1);
      Ok((r.0, [deck[|deck| - 1]] + r.1))
  }

  /** deal_hands: each seat in turn takes two pops. Dealing n hands
      succeeds exactly when the deck holds 2n cards; it takes them off the
      end, two per seat, and no card is lost. */
  function DealHands(deck: seq<Cards.Card>, n: nat): (d: Result<(seq<Cards.Card>, seq<seq<Cards.Card>>), EnvError>)
    ensures d.Ok? <==> 2 * n <= |deck|
    ensures d.Ok? ==>
              && d.value.0 == deck[..|deck| - 2 * n]
              && |d.value.1| == n
              && (forall i :: 0 <= i < n ==> |d.value.1[i]| == 2)
              && multiset(deck) == multiset(d.value.0) + multiset(Flatten(d.value.1))
    decreases n
  {
    if n == 0 then Ok((deck, []))
    else
      PopTwo(deck);
      match PopCards(deck, 2)
      case Err(e) => Err(e)
      case Ok(p) =>
        match DealHands(p.0, n - 1)
        case Err(e) => Err(e)
        case Ok(r) =>
          DealOneMore(deck, p.0, p.1, r.0, r.1, n);
          Ok((r.0, [p.1] + r.1))
  }

  /** The two pops of one seat. */
  lemma PopTwo(deck: seq<Cards.Card>)
    ensures PopCards(deck, 2).Ok? <==> 2 <= |deck|
    ensures PopCards(deck, 2).Ok? ==>
              && PopCards(deck, 2).value.0 == deck[..|deck| - 2]
              && |PopCards(deck, 2).value.1| == 2
              && multiset(deck) == multiset(PopCards(deck, 2).value.0) + multiset(PopCards(deck, 2).value.1)
  {
    PopCardsEffect(deck, 2);
  }

  /** Two cards popped for the first seat, then n - 1 hands dealt from
      what is left: n hands of two off the end, and no card lost. */
  lemma DealOneMore(deck: seq<Cards.Card>, left: seq<Cards.Card>, first: seq<Cards.Card>,
                    rest: seq<Cards.Card>, later: seq<seq<Cards.Card>>, n: nat)
    requires n > 0 && 2 <= |deck|
    requires left == deck[..|deck| - 2] && |first| == 2
    requires multiset(deck) == multiset(left) + multiset(first)
    requires 2 * (n - 1) <= |left| && rest == left[..|left| - 2 * (n - 1)]
    requires |later| == n - 1 && forall i :: 0 <= i < n - 1 ==> |later[i]| == 2
    requires multiset(left) == multiset(rest) + multiset(Flatten(later))
    ensures var hands := [first] + later;
            && rest == deck[..|deck| - 2 * n]
            && |hands| == n
            && (forall i :: 0 <= i < n ==> |hands[i]| == 2)
            && multiset(deck) == multiset(rest) + multiset(Flatten(hands))
  {
    var hands := [first] + later;
    assert forall i :: 0 < i < n ==> hands[i] == later[i - 1];
    assert Flatten(hands) == first + Flatten(later) by {
      assert hands[1..] == later;
    }
  }

  /** Popping k cards succeeds exactly when the deck holds k; the rest of
      the deck is its first |deck| - k cards, the cards come off from the
      end, and no card is lost. */
  lemma {:induction false} PopCardsEffect(deck: seq<Cards.Card>, k: nat)
    ensures PopCards(deck, k).Ok? <==> k <= |deck|
    ensures PopCards(deck, k).Ok? ==>
              var (rest, popped) := PopCards(deck, k).value;
              && rest == deck[..|deck| - k]
              && |popped| == k
              && (forall i :: 0 <= i < k ==> popped[i] == deck[|deck| - 1 - i])
              && multiset(deck) == multiset(rest) + multiset(popped)
    decreases k
  {
    if k > 0 && |deck| > 0 {
      var d := deck[..|deck| - 1];
      PopCardsEffect(d, k - 1);
      if k <= |deck| {
        var r := PopCards(d, k - 1).value;
        PopOneMore(deck, r.0, r.1, k);
      }
    }
  }

  /** Popping one more card, the last of the deck, after k - 1 pops from
      the deck without it. */
  lemma PopOneMore(deck: seq<Cards.Card>, rest: seq<Cards.Card>, popped: seq<Cards.Card>, k: nat)
    requires 0 < k <= |deck|
    requires var d := deck[..|deck| - 1];
             && rest == d[..|d| - (k - 1)]
             && |popped| == k - 1
             && (forall i :: 0 <= i < k - 1 ==> popped[i] == d[|d| - 1 - i])
             && multiset(d) == multiset(rest) + multiset(popped)
    ensures var all := [deck[|deck| - 1]] + popped;
            && rest == deck[..|deck| - k]
            && |all| == k
            && (forall i :: 0 <= i < k ==> all[i] == deck[|deck| - 1 - i])
            && multiset(deck) == multiset(rest) + multiset(all)
  {
    var d := deck[..|deck| - 1];
    var all := [deck[|deck| - 1]] + popped;
    assert deck == d + [deck[|deck| - 1]];
    forall i | 0 < i < k
      ensures all[i] == deck[|deck| - 1 - i]
    {
      assert all[i] == popped[i - 1] == d[|d| - 1 - (i - 1)];
    }
  }

  // ---------------------------------------------------------------------
  // The table

  /** The shape every table keeps: one hand and one bet per seat, and the
      agent's seat and the current player inside the table. */
  predicate WellShaped(e: Env) {
    && e.numPlayers > 0
    && |e.hands| == e.numPlayers
    && |e.bets| == e.numPlayers
    && e.agentPosition < e.numPlayers
    && e.currentPlayer < e.numPlayers
  }

  /** The table's invariant: the pot is the sum of the bets, no bet is
      negative, and the deck, the board and the hands together hold the 52
      cards, each exactly once. */
  predicate Valid(e: Env) {
    && WellShaped(e)
    && e.pot == Sum(e.bets)
    && (forall i :: 0 <= i < |e.bets| ==> e.bets[i] >= 0)
    && multiset(e.deck) + multiset(e.community) + multiset(Flatten(e.hands)) == multiset(Cards.RankMajorDeck())
  }

  /** __init__: a shuffled deck, empty hands and board, zero bets, the
      agent's seat drawn from 0..n-1. */
  function NewEnvironment(numPlayers: nat, draws: seq<nat>, agentPosition: nat): Result<Env, EnvError>
    requires Cards.ValidShuffleDraws(52, draws)
    requires numPlayers > 0 ==> agentPosition < numPlayers
  {
    if numPlayers == 0 then Err(NoPlayers)
    else Ok(Env(numPlayers, CreateDeck(draws), [], NoHands(numPlayers), 0, 0,
                agentPosition, 0, seq(numPlayers, _ => 0)))
  }

  /** reset: a freshly shuffled deck, empty board, zero pot, round and
      bets, two new cards per seat. The current player is NOT reset. */
  function Reset(e: Env, draws: seq<nat>): Result<Env, EnvError>
    requires WellShaped(e) && Cards.ValidShuffleDraws(52, draws)
  {
    match DealHands(CreateDeck(draws), e.numPlayers)
    case Err(err) => Err(err)
    case Ok(dealt) =>
      Ok(e.(deck := dealt.0, community := [], hands := dealt.1, pot := 0, bettingRound := 0,
            bets := seq(e.numPlayers, _ => 0)))
  }

  /** get_game_state */
  function GetGameState(e: Env): GameState
    requires WellShaped(e)
  {
    GameState(e.hands[e.agentPosition], e.community, e.pot, e.bets, e.bettingRound, e.currentPlayer)
  }

  /** Every card of a hand is among the flattened hands. */
  lemma {:induction false} InFlatten(hs: seq<seq<Cards.Card>>, k: nat, c: Cards.Card)
    requires k < |hs| && c in hs[k]
    ensures c in Flatten(hs)
  {
    if k > 0 {
      assert hs[1..][k - 1] == hs[k];
      InFlatten(hs[1..], k - 1, c);
    }
  }

  /** The state get_game_state shows of a valid table: one bet per seat,
      none negative, summing to the pot; a seat whose turn it is; and hole
      cards of the agent that are not on the board. */
  lemma GameStateOfValidTable(e: Env)
    requires Valid(e)
    ensures var s := GetGameState(e);
            && s.agentHand == e.hands[e.agentPosition] && s.communityCards == e.community
            && |s.bets| == e.numPlayers && s.pot == Sum(s.bets)
            && (forall i :: 0 <= i < |s.bets| ==> s.bets[i] >= 0)
            && s.currentPlayer < |s.bets|
            && (forall c :: c in s.agentHand ==> c !in s.communityCards)
  {
    var full := Cards.RankMajorDeck();
    Cards.RankMajorDeckComplete();
    forall c | c in e.hands[e.agentPosition]
      ensures c !in e.community
    {
      InFlatten(e.hands, e.agentPosition, c);
      Cards.DistinctMultiplicity(full, c);
      assert multiset(full)[c] <= 1;
      assert multiset(Flatten(e.hands))[c] >= 1;
      assert multiset(e.community)[c] == 0;
    }
  }

  /** How many community cards a step deals once the round is known: 3, 1
      and 1 on EVERY step of rounds 1, 2 and 3. */
  function CardsToDeal(round: nat): nat {
    if round == 1 then 3 else if round == 2 || round == 3 then 1 else 0
  }

  /** calculate_winner: the pot for the agent if the drawn seat is the
      agent's, minus the pot otherwise. */
  function CalculateWinner(e: Env, winner: nat): int {
    if winner == e.agentPosition then e.pot else -e.pot
  }

  /** step: apply the action (the raise size drawn from 10..50 and the
      winner's seat are given), pass the turn, deal by round, and end the
      hand after round 3. */
  function Step(e: Env, action: string, raiseAmount: int, winner: nat): Result<StepResult, EnvError>
    requires WellShaped(e)
    requires 10 <= raiseAmount <= 50 && winner < e.numPlayers
  {
    var cur := e.currentPlayer;
    if action != "fold" && action != "call" && action != "raise" then Err(UnknownAction(action))
    else
      var amount := if action == "call" then MaxOf(e.bets) - e.bets[cur]
                    else if action == "raise" then raiseAmount
                    else 0;
      var next := (cur + 1) % e.numPlayers;
      var round := if next == 0 then e.bettingRound + 1 else e.bettingRound;
      match PopCards(e.deck, CardsToDeal(round))
      case Err(err) => Err(err)
      case Ok(dealt) =>
        var e' := e.(pot := e.pot + amount, bets := e.bets[cur := e.bets[cur] + amount],
                     currentPlayer := next, bettingRound := round,
                     deck := dealt.0, community := e.community + dealt.1);
        if round > 3 then Ok(StepResult(e', CalculateWinner(e', winner), true))
        else if action == "fold" then Ok(StepResult(e', -1, true))
        else Ok(StepResult(e', 0, false))
  }

  // ---------------------------------------------------------------------
  // Properties

  function NoHands(n: nat): seq<seq<Cards.Card>> {
    seq(n, _ => [])
  }

  lemma {:induction false} FlattenEmpties(n: nat)
    ensures Flatten(NoHands(n)) == []
  {
    if n > 0 {
      assert NoHands(n)[1..] == NoHands(n - 1);
      FlattenEmpties(n - 1);
    }
  }

  /** A new table is valid: the whole shuffled deck, nothing dealt, no
      bets; it fails only with no seats. */
  lemma NewEnvironmentIsValid(numPlayers: nat, draws: seq<nat>, agentPosition: nat)
    requires Cards.ValidShuffleDraws(52, draws)
    requires numPlayers > 0 ==> agentPosition < numPlayers
    ensures NewEnvironment(numPlayers, draws, agentPosition).Err? <==> numPlayers == 0
    ensures NewEnvironment(numPlayers, draws, agentPosition).Ok? ==>
              var e := NewEnvironment(numPlayers, draws, agentPosition).value;
              Valid(e) && |e.deck| == 52 && e.community == [] && e.currentPlayer == 0
  {
    if numPlayers > 0 {
      FlattenEmpties(numPlayers);
      SumOfZeros(numPlayers);
    }
  }

  /** reset succeeds exactly when the deck covers two cards per seat; it
      leaves a valid table with 52 - 2n cards in the deck, two per hand,
      an empty board, zero pot, round and bets, and the same current
      player and agent seat. */
  lemma ResetEffect(e: Env, draws: seq<nat>)
    requires WellShaped(e) && Cards.ValidShuffleDraws(52, draws)
    ensures Reset(e, draws).Ok? <==> 2 * e.numPlayers <= 52
    ensures Reset(e, draws).Ok? ==>
              var r := Reset(e, draws).value;
              && Valid(r)
              && |r.deck| == 52 - 2 * e.numPlayers
              && (forall i :: 0 <= i < |r.hands| ==> |r.hands[i]| == 2)
              && r.community == [] && r.pot == 0 && r.bettingRound == 0
              && (forall i :: 0 <= i < |r.bets| ==> r.bets[i] == 0)
              && r.currentPlayer == e.currentPlayer && r.agentPosition == e.agentPosition
  {
    var deck := CreateDeck(draws);
    var n := e.numPlayers;
    CreateDeckFacts(draws);
    match DealHands(deck, n)
    case Err(_) =>
    case Ok(dealt) =>
      DealtTableFacts(e, deck, dealt.0, dealt.1);
  }

  /** The shuffled deck is the full deck in some order. */
  lemma CreateDeckFacts(draws: seq<nat>)
    requires Cards.ValidShuffleDraws(52, draws)
    ensures |CreateDeck(draws)| == 52 && multiset(CreateDeck(draws)) == multiset(Cards.RankMajorDeck())
  {
  }

  /** The table left by a deal of n hands from a full deck. */
  lemma DealtTableFacts(e: Env, deck: seq<Cards.Card>, rest: seq<Cards.Card>, hands: seq<seq<Cards.Card>>)
    requires WellShaped(e) && |hands| == e.numPlayers && |deck| == 52
    requires multiset(deck) == multiset(Cards.RankMajorDeck())
    requires multiset(deck) == multiset(rest) + multiset(Flatten(hands))
    requires |rest| + 2 * e.numPlayers == 52
    requires forall i :: 0 <= i < |hands| ==> |hands[i]| == 2
    ensures var r := e.(deck := rest, community := [], hands := hands, pot := 0, bettingRound := 0,
                        bets := seq(e.numPlayers, _ => 0));
            && Valid(r)
            && |r.deck| == 52 - 2 * e.numPlayers
            && (forall i :: 0 <= i < |r.hands| ==> |r.hands[i]| == 2)
            && r.community == [] && r.pot == 0 && r.bettingRound == 0
            && (forall i :: 0 <= i < |r.bets| ==> r.bets[i] == 0)
            && r.currentPlayer == e.currentPlayer && r.agentPosition == e.agentPosition
  {
    DealtTableIsValid(e, deck, rest, hands);
  }

  /** A table whose hands were just dealt from a full deck, with the board,
      pot and bets cleared, is valid. */
  lemma DealtTableIsValid(e: Env, deck: seq<Cards.Card>, rest: seq<Cards.Card>, hands: seq<seq<Cards.Card>>)
    requires WellShaped(e) && |hands| == e.numPlayers
    requires multiset(deck) == multiset(Cards.RankMajorDeck())
    requires multiset(deck) == multiset(rest) + multiset(Flatten(hands))
    ensures Valid(e.(deck := rest, community := [], hands := hands, pot := 0, bettingRound := 0,
                     bets := seq(e.numPlayers, _ => 0)))
  {
    var t := e.(deck := rest, community := [], hands := hands, pot := 0, bettingRound := 0,
                bets := seq(e.numPlayers, _ => 0));
    SumOfZeros(e.numPlayers);
    ClearedTableShape(e, t);
    DealtCardsAreTheDeck(t, deck);
  }

  /** The shape and the chips of a table whose bets were just cleared. */
  lemma ClearedTableShape(e: Env, t: Env)
    requires WellShaped(e) && |t.hands| == e.numPlayers
    requires t.numPlayers == e.numPlayers && t.agentPosition == e.agentPosition
    requires t.currentPlayer == e.currentPlayer
    requires t.pot == 0 && t.bets == seq(e.numPlayers, _ => 0) && Sum(t.bets) == 0
    ensures WellShaped(t) && t.pot == Sum(t.bets)
    ensures forall i :: 0 <= i < |t.bets| ==> t.bets[i] >= 0
  {
  }

  /** A table holding the cards of a full deck holds the 52 cards. */
  lemma DealtCardsAreTheDeck(t: Env, deck: seq<Cards.Card>)
    requires WellShaped(t) && t.pot == Sum(t.bets)
    requires forall i :: 0 <= i < |t.bets| ==> t.bets[i] >= 0
    requires multiset(deck) == multiset(Cards.RankMajorDeck())
    requires t.community == []
    requires multiset(deck) == multiset(t.deck) + multiset(Flatten(t.hands))
    ensures Valid(t)
  {
    assert multiset(t.community) == multiset{};
  }

  /** A call brings the current seat's bet up to the highest bet; a raise
      adds the drawn amount; a fold moves no chips. Either way the pot
      grows by what the seat put in, and the other seats' bets stay. */
  lemma StepBets(e: Env, action: string, raiseAmount: int, winner: nat)
    requires WellShaped(e)
    requires 10 <= raiseAmount <= 50 && winner < e.numPlayers
    requires Step(e, action, raiseAmount, winner).Ok?
    ensures var e' := Step(e, action, raiseAmount, winner).value.env;
            var cur := e.currentPlayer;
            && (action == "call" ==> e'.bets[cur] == MaxOf(e.bets))
            && (action == "raise" ==> e'.bets[cur] == e.bets[cur] + raiseAmount)
            && (action == "fold" ==> e'.bets == e.bets && e'.pot == e.pot)
            && e'.pot - e.pot == e'.bets[cur] - e.bets[cur]
            && |e'.bets| == |e.bets|
            && (forall i :: 0 <= i < |e.bets| && i != cur ==> e'.bets[i] == e.bets[i])
  {
  }

  /** The turn passes to the next seat, wrapping to 0; the round advances
      exactly when it wraps; and 3, 1, 1 or 0 cards are dealt from the
      end of the deck according to the new round. */
  lemma StepAdvances(e: Env, action: string, raiseAmount: int, winner: nat)
    requires WellShaped(e)
    requires 10 <= raiseAmount <= 50 && winner < e.numPlayers
    requires Step(e, action, raiseAmount, winner).Ok?
    ensures var e' := Step(e, action, raiseAmount, winner).value.env;
            && e'.currentPlayer == (e.currentPlayer + 1) % e.numPlayers
            && (e'.bettingRound == e.bettingRound + 1 <==> e'.currentPlayer == 0)
            && (e'.bettingRound == e.bettingRound <==> e'.currentPlayer != 0)
            && |e'.community| == |e.community| + CardsToDeal(e'.bettingRound)
            && e'.community[..|e.community|] == e.community
            && |e'.deck| + CardsToDeal(e'.bettingRound) == |e.deck|
            && e'.deck == e.deck[..|e'.deck|]
            && WellShaped(e')
  {
    var next := (e.currentPlayer + 1) % e.numPlayers;
    var round := if next == 0 then e.bettingRound + 1 else e.bettingRound;
    StepShape(e, action, raiseAmount, winner);
    PopCardsEffect(e.deck, CardsToDeal(round));
  }

  /** What a successful step changes: pot and bets, the seat and round,
      and the cards popped from the deck onto the board. */
  lemma StepShape(e: Env, action: string, raiseAmount: int, winner: nat)
    requires WellShaped(e)
    requires 10 <= raiseAmount <= 50 && winner < e.numPlayers
    requires Step(e, action, raiseAmount, winner).Ok?
    ensures var next := (e.currentPlayer + 1) % e.numPlayers;
            var round := if next == 0 then e.bettingRound + 1 else e.bettingRound;
            var dealt := PopCards(e.deck, CardsToDeal(round));
            var e' := Step(e, action, raiseAmount, winner).value.env;
            && dealt.Ok?
            && |e'.bets| == |e.bets|
            && e' == e.(pot := e'.pot, bets := e'.bets, currentPlayer := next, bettingRound := round,
                        deck := dealt.value.0, community := e.community + dealt.value.1)
  {
  }

  /** Errors: an unknown action is refused; otherwise the step fails only
      when the deck cannot supply the cards the new round deals. */
  lemma StepErrors(e: Env, action: string, raiseAmount: int, winner: nat)
    requires WellShaped(e)
    requires 10 <= raiseAmount <= 50 && winner < e.numPlayers
    ensures action != "fold" && action != "call" && action != "raise" ==>
              Step(e, action, raiseAmount, winner) == Err(UnknownAction(action))
    ensures (action == "fold" || action == "call" || action == "raise") ==>
              var next := (e.currentPlayer + 1) % e.numPlayers;
              var round := if next == 0 then e.bettingRound + 1 else e.bettingRound;
              (Step(e, action, raiseAmount, winner).Ok? <==> CardsToDeal(round) <= |e.deck|)
  {
    var next := (e.currentPlayer + 1) % e.numPlayers;
    var round := if next == 0 then e.bettingRound + 1 else e.bettingRound;
    PopCardsEffect(e.deck, CardsToDeal(round));
  }

  /** Rewards: past round 3 the hand is over and the agent wins or loses
      the whole pot by the drawn seat (even on a fold); before that a fold
      ends the hand with -1 and anything else pays 0 and goes on. */
  lemma StepReward(e: Env, action: string, raiseAmount: int, winner: nat)
    requires WellShaped(e)
    requires 10 <= raiseAmount <= 50 && winner < e.numPlayers
    requires Step(e, action, raiseAmount, winner).Ok?
    ensures var r := Step(e, action, raiseAmount, winner).value;
            && (r.env.bettingRound > 3 ==>
                  r.done && r.reward == (if winner == e.agentPosition then r.env.pot else -r.env.pot))
            && (r.env.bettingRound <= 3 ==>
                  r.done == (action == "fold") && r.reward == (if action == "fold" then -1 else 0))
  {
  }

  /** A step keeps the pot equal to the sum of the bets, none negative. */
  lemma StepKeepsPotIsSumOfBets(e: Env, action: string, raiseAmount: int, winner: nat)
    requires Valid(e)
    requires 10 <= raiseAmount <= 50 && winner < e.numPlayers
    requires Step(e, action, raiseAmount, winner).Ok?
    ensures var e' := Step(e, action, raiseAmount, winner).value.env;
            && e'.pot == Sum(e'.bets)
            && (forall i :: 0 <= i < |e'.bets| ==> e'.bets[i] >= 0)
  {
    var cur := e.currentPlayer;
    var e' := Step(e, action, raiseAmount, winner).value.env;
    StepBets(e, action, raiseAmount, winner);
    assert e.bets[cur] in e.bets;
    RaisedBetKeepsPot(e.bets, e'.bets, e.pot, e'.pot, cur);
  }

  /** Raising one seat's bet by what the pot grew keeps the pot equal to
      the sum of the bets, none negative. */
  lemma RaisedBetKeepsPot(bets: seq<int>, bets': seq<int>, pot: int, pot': int, cur: nat)
    requires cur < |bets| == |bets'| && pot == Sum(bets)
    requires forall i :: 0 <= i < |bets| ==> bets[i] >= 0
    requires forall i :: 0 <= i < |bets| && i != cur ==> bets'[i] == bets[i]
    requires bets'[cur] >= bets[cur] && pot' - pot == bets'[cur] - bets[cur]
    ensures pot' == Sum(bets') && forall i :: 0 <= i < |bets'| ==> bets'[i] >= 0
  {
    assert bets' == bets[cur := bets[cur] + (bets'[cur] - bets[cur])];
    SumUpdate(bets, cur, bets'[cur] - bets[cur]);
  }

  /** A step moves cards only from the end of the deck onto the board. */
  lemma StepKeepsCards(e: Env, action: string, raiseAmount: int, winner: nat)
    requires WellShaped(e)
    requires 10 <= raiseAmount <= 50 && winner < e.numPlayers
    requires Step(e, action, raiseAmount, winner).Ok?
    ensures var e' := Step(e, action, raiseAmount, winner).value.env;
            && e'.hands == e.hands
            && multiset(e'.deck) + multiset(e'.community) == multiset(e.deck) + multiset(e.community)
  {
    var next := (e.currentPlayer + 1) % e.numPlayers;
    var round := if next == 0 then e.bettingRound + 1 else e.bettingRound;
    var k := CardsToDeal(round);
    StepShape(e, action, raiseAmount, winner);
    PopCardsEffect(e.deck, k);
    var dealt := PopCards(e.deck, k).value;
    var e' := Step(e, action, raiseAmount, winner).value.env;
    assert multiset(e'.community) == multiset(e.community) + multiset(dealt.1);
  }

  /** Every step keeps the table valid: in particular the pot stays equal
      to the sum of the bets and no card appears twice or goes missing. */
  lemma StepPreservesValid(e: Env, action: string, raiseAmount: int, winner: nat)
    requires Valid(e)
    requires 10 <= raiseAmount <= 50 && winner < e.numPlayers
    requires Step(e, action, raiseAmount, winner).Ok?
    ensures Valid(Step(e, action, raiseAmount, winner).value.env)
  {
    StepAdvances(e, action, raiseAmount, winner);
    StepKeepsPotIsSumOfBets(e, action, raiseAmount, winner);
    StepKeepsCards(e, action, raiseAmount, winner);
  }

  /** In a valid table no card is held twice: deck, board and hands
      together have no repetitions. */
  lemma ValidHasNoDuplicateCards(e: Env)
    requires Valid(e)
    ensures Cards.Distinct(e.deck + e.community + Flatten(e.hands))
    ensures |e.deck| + |e.community| + |Flatten(e.hands)| == 52
  {
    Cards.RankMajorDeckComplete();
    var all := e.deck + e.community + Flatten(e.hands);
    assert multiset(all) == multiset(Cards.RankMajorDeck());
    Cards.PermutationKeepsDistinct(Cards.RankMajorDeck(), all);
    assert |all| == |multiset(all)|;
  }
}
