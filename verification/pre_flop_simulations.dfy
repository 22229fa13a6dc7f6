/** The pre-flop Monte Carlo simulator: a 52-card deck of names such as
    "A_of_hearts", the hole cards taken out of a copy of it, two cards
    dealt to each opponent, five community cards from what is left, and
    the player winning a round only by beating every opponent's score.
    The random samples and the placeholder strength scores arrive as
    parameters. */
module PreFlopSimulations {
  import opened Wrappers
  import opened Vectors
  import Cards

  datatype SimError =
    | CardNotInDeck(card: string)   // list.remove of a card that is not there
    | SampleTooLarge                // random.sample of more cards than are left
    | NoOpponents                   // max() of an empty list of scores
    | NoSimulations                 // win_count / 0

  datatype Outcome = Win | Lose

  /** What one simulated round dealt and how it ended. */
  datatype Deal = Deal(opponentHands: seq<seq<string>>, community: seq<string>, outcome: Outcome)

  /** The random values one round consumes: the positions random.sample
      picks for each opponent and for the board, and the scores
      calculate_hand_strength returns for the player and each opponent. */
  datatype Draws = Draws(opponentPicks: seq<seq<nat>>, communityPicks: seq<nat>,
                         playerScore: int, opponentScores: seq<int>)

  // ---------------------------------------------------------------------
  // The deck

  function SuitName(s: Cards.Suit): string {
    match s
    case Hearts => "hearts"
    case Diamonds => "diamonds"
    case Clubs => "clubs"
    case Spades => "spades"
  }

  /** A card's name in the simulator: "10_of_clubs", "A_of_hearts". */
  function DeckName(c: Cards.Card): string {
    Cards.RankText(c.rank) + "_of_" + SuitName(c.suit)
  }

  /** The card at a deck position: suits in the outer loop, ranks in the
      inner one. */
  function CardAt(i: nat): Cards.Card
    requires i < 52
  {
    Cards.Card(2 + i % 13, Cards.SuitAt(i / 13))
  }

  /** initialize_deck */
  function InitializeDeck(): seq<string> {
    seq(52, i requires 0 <= i < 52 => DeckName(CardAt(i)))
  }

  /** Different cards have different names: the first character tells the
      rank (only ten starts with '1') and the character after "_of_" tells
      the suit. */
  lemma DeckNameInjective(a: Cards.Card, b: Cards.Card)
    requires DeckName(a) == DeckName(b)
    ensures a == b
  {
    var na, nb := DeckName(a), DeckName(b);
    assert Cards.RankText(a.rank)[0] == na[0] == nb[0] == Cards.RankText(b.rank)[0];
    assert a.rank == b.rank;
    var k := |Cards.RankText(a.rank)| + 4;
    assert na[k] == SuitName(a.suit)[0];
    assert nb[k] == SuitName(b.suit)[0];
  }

  /** The deck holds 52 distinct names, one for every card, the card of
      suit s and rank r at position 13 * s + r - 2. */
  lemma DeckHasEveryCardOnce()
    ensures |InitializeDeck()| == 52
    ensures Cards.Distinct(InitializeDeck())
    ensures forall c: Cards.Card :: InitializeDeck()[13 * Cards.SuitIndex(c.suit) + c.rank - 2] == DeckName(c)
    ensures forall s :: s in InitializeDeck() <==> exists c: Cards.Card :: s == DeckName(c)
  {
    DeckIsDistinct();
    DeckPositions();
    DeckMembers();
  }

  /** The name at a deck position. */
  lemma DeckAt(i: nat)
    requires i < 52
    ensures |InitializeDeck()| == 52 && InitializeDeck()[i] == DeckName(CardAt(i))
  {
  }

  /** No name occurs twice in the deck. */
  lemma DeckIsDistinct()
    ensures |InitializeDeck()| == 52
    ensures Cards.Distinct(InitializeDeck())
  {
    DeckAt(0);
    forall i, j | 0 <= i < j < 52
      ensures InitializeDeck()[i] != InitializeDeck()[j]
    {
      DeckAt(i);
      DeckAt(j);
      if DeckName(CardAt(i)) == DeckName(CardAt(j)) {
        DeckNameInjective(CardAt(i), CardAt(j));
      }
    }
  }

  /** The card of suit s and rank r sits at position 13 * s + r - 2. */
  lemma DeckPositions()
    ensures forall c: Cards.Card :: InitializeDeck()[13 * Cards.SuitIndex(c.suit) + c.rank - 2] == DeckName(c)
  {
    forall c: Cards.Card
      ensures InitializeDeck()[13 * Cards.SuitIndex(c.suit) + c.rank - 2] == DeckName(c)
    {
      var i := 13 * Cards.SuitIndex(c.suit) + c.rank - 2;
      assert i / 13 == Cards.SuitIndex(c.suit) && i % 13 == c.rank - 2;
      DeckAt(i);
    }
  }

  /** Every name in the deck names a card, and every card's name is in it. */
  lemma DeckMembers()
    ensures forall s :: s in InitializeDeck() <==> exists c: Cards.Card :: s == DeckName(c)
  {
    DeckPositions();
    forall s | s in InitializeDeck()
      ensures exists c: Cards.Card :: s == DeckName(c)
    {
      var i :| 0 <= i < 52 && InitializeDeck()[i] == s;
      DeckAt(i);
    }
  }

  // ---------------------------------------------------------------------
  // Taking cards out

  /** list.remove: the first occurrence goes, a missing card is an error. */
  function RemoveFirst(d: seq<string>, x: string): Result<seq<string>, SimError> {
    if |d| == 0 then Err(CardNotInDeck(x))
    else if d[0] == x then Ok(d[1..])
    else
      var rest :- RemoveFirst(d[1..], x);
      Ok([d[0]] + rest)
  }

  /** The loop removing the hole cards one by one. */
  function RemoveHand(d: seq<string>, hand: seq<string>): Result<seq<string>, SimError>
    decreases |hand|
  {
    if |hand| == 0 then Ok(d)
    else
      var d1 :- RemoveFirst(d, hand[0]);
      RemoveHand(d1, hand[1..])
  }

  /** `[card for card in deck_copy if card not in opponent_hand]` */
  function Without(d: seq<string>, cards: seq<string>): seq<string> {
    if |d| == 0 then []
    else (if d[0] in cards then [] else [d[0]]) + Without(d[1..], cards)
  }

  /** random.sample(population, k), at the positions the generator
      picks: distinct positions, k of them. */
  predicate ValidSample(picks: seq<nat>, k: nat, n: int) {
    && |picks| == k
    && (forall i :: 0 <= i < |picks| ==> picks[i] < n)
    && Cards.Distinct(picks)
  }

  function Sample(population: seq<string>, k: nat, picks: seq<nat>): Result<seq<string>, SimError>
    requires k <= |population| ==> ValidSample(picks, k, |population|)
  {
    if k > |population| then Err(SampleTooLarge)
    else Ok(seq(k, i requires 0 <= i < k => population[picks[i]]))
  }

  // ---------------------------------------------------------------------
  // One round

  /** The opponents' loop: two cards sampled for each opponent and then
      filtered out of the deck. The i-th sample is taken from a deck of
      |deck| - 2i cards. */
  predicate ValidOpponentPicks(picks: seq<seq<nat>>, size: int) {
    forall i :: 0 <= i < |picks| && size - 2 * i >= 2 ==> ValidSample(picks[i], 2, size - 2 * i)
  }

  function DealOpponents(deck: seq<string>, picks: seq<seq<nat>>): Result<(seq<seq<string>>, seq<string>), SimError>
    requires Cards.Distinct(deck)
    requires ValidOpponentPicks(picks, |deck|)
    decreases |picks|
  {
    if |picks| == 0 then Ok(([], deck))
    else
      var hand :- Sample(deck, 2, picks[0]);
      var rest := Without(deck, hand);
      SampleOfTwoShrinksDeck(deck, picks[0]);
      LaterPicks(picks, |rest|);
      var (hands, left) :- DealOpponents(rest, picks[1..]);
      Ok(([hand] + hands, left))
  }

  /** The number of opponents range() iterates over. */
  function Opponents(numOpponents: int): nat {
    if numOpponents < 0 then 0 else numOpponents
  }

  /** The draws one round needs, for the hole cards given: one sample per
      opponent from the deck left at that point, one board sample, and a
      score in [1, 100] (random.randint(1, 100)) for the player and for each
      opponent. */
  predicate ValidDraws(hand: seq<string>, numOpponents: int, dr: Draws) {
    var left := 52 - |hand|;
    var n := Opponents(numOpponents);
    && |dr.opponentPicks| == n
    && |dr.opponentScores| == n
    && 1 <= dr.playerScore <= 100
    && (forall i :: 0 <= i < |dr.opponentScores| ==> 1 <= dr.opponentScores[i] <= 100)
    && ValidOpponentPicks(dr.opponentPicks, left)
    && (left - 2 * n >= 5 ==> ValidSample(dr.communityPicks, 5, left - 2 * n))
  }

  /** The round's result: a win only when the player's score is strictly
      above every opponent's. */
  function Judge(playerScore: int, opponentScores: seq<int>): Result<Outcome, SimError> {
    if |opponentScores| == 0 then Err(NoOpponents)
    else if playerScore > MaxOf(opponentScores) then Ok(Win)
    else Ok(Lose)
  }

  /** run_single_simulation on the simulator's own deck. */
  function RunSingleSimulation(hand: seq<string>, numOpponents: int, dr: Draws): Result<Deal, SimError>
    requires ValidDraws(hand, numOpponents, dr)
  {
    var deckCopy :- RemoveHand(InitializeDeck(), hand);
    DeckIsDistinct();
    RemovedHandLeavesDistinctDeck(InitializeDeck(), hand);
    var (hands, rest) :- DealOpponents(deckCopy, dr.opponentPicks);
    DealOpponentsEffect(deckCopy, dr.opponentPicks);
    var community :- Sample(rest, 5, dr.communityPicks);
    var outcome :- Judge(dr.playerScore, dr.opponentScores);
    Ok(Deal(hands, community, outcome))
  }

  // ---------------------------------------------------------------------
  // Many rounds

  /** The simulation loop: the number of rounds won, or the first error. */
  function WinCount(hand: seq<string>, numOpponents: int, draws: seq<Draws>): Result<nat, SimError>
    requires forall i :: 0 <= i < |draws| ==> ValidDraws(hand, numOpponents, draws[i])
  {
    if |draws| == 0 then Ok(0)
    else
      var before :- WinCount(hand, numOpponents, draws[..|draws| - 1]);
      var deal :- RunSingleSimulation(hand, numOpponents, draws[|draws| - 1]);
      Ok(before + if deal.outcome == Win then 1 else 0)
  }

  /** simulate: one round per simulation, then the share of rounds won. A
      negative count runs no rounds and gives 0 / n = 0; a count of zero
      divides by zero. */
  function Simulate(hand: seq<string>, numOpponents: int, numSimulations: int, draws: seq<Draws>): Result<real, SimError>
    requires |draws| == (if numSimulations < 0 then 0 else numSimulations)
    requires forall i :: 0 <= i < |draws| ==> ValidDraws(hand, numOpponents, draws[i])
  {
    var wins :- WinCount(hand, numOpponents, draws);
    if numSimulations == 0 then Err(NoSimulations)
    else Ok(wins as real / numSimulations as real)
  }

  // ---------------------------------------------------------------------
  // Multisets and repetitions

  /** A sub-collection of a list without repetitions has none either. */
  lemma {:induction false} SubMultisetKeepsDistinct(a: seq<string>, b: seq<string>)
    requires multiset(b) <= multiset(a) && Cards.Distinct(a)
    ensures Cards.Distinct(b)
  {
    forall i, j | 0 <= i < j < |b|
      ensures b[i] != b[j]
    {
      if b[i] == b[j] {
        Cards.RepeatedMultiplicity(b, i, j);
        Cards.DistinctMultiplicity(a, b[i]);
      }
    }
  }

  // ---------------------------------------------------------------------
  // Properties of removal

  /** Removing a card succeeds exactly when the card is in the deck, and
      then takes out one copy of it and nothing else. */
  lemma {:induction false} RemoveFirstEffect(d: seq<string>, x: string)
    ensures RemoveFirst(d, x).Ok? <==> x in d
    ensures RemoveFirst(d, x).Err? ==> RemoveFirst(d, x).error == CardNotInDeck(x)
    ensures RemoveFirst(d, x).Ok? ==> multiset(RemoveFirst(d, x).value) == multiset(d) - multiset{x}
    ensures RemoveFirst(d, x).Ok? ==> |RemoveFirst(d, x).value| == |d| - 1
  {
    if |d| > 0 {
      assert d == [d[0]] + d[1..];
      if d[0] != x {
        RemoveFirstEffect(d[1..], x);
      }
    }
  }

  /** Removing the hole cards succeeds exactly when the deck holds every
      one of them (as often as the hand does); it then takes out exactly
      those cards. */
  lemma {:induction false} RemoveHandEffect(d: seq<string>, hand: seq<string>)
    ensures RemoveHand(d, hand).Ok? <==> multiset(hand) <= multiset(d)
    ensures RemoveHand(d, hand).Ok? ==>
              && multiset(RemoveHand(d, hand).value) == multiset(d) - multiset(hand)
              && |RemoveHand(d, hand).value| == |d| - |hand|
    decreases |hand|
  {
    if |hand| > 0 {
      var c := hand[0];
      assert hand == [c] + hand[1..];
      assert multiset(hand) == multiset{c} + multiset(hand[1..]);
      RemoveFirstEffect(d, c);
      if c in d {
        var d1 := RemoveFirst(d, c).value;
        RemoveHandEffect(d1, hand[1..]);
        SubMultisetLessOne(c, multiset(hand[1..]), multiset(d));
        assert RemoveHand(d, hand) == RemoveHand(d1, hand[1..]);
      } else {
        assert multiset(hand)[c] > multiset(d)[c];
      }
    }
  }

  /** Taking one copy of c out of both sides of an inclusion. */
  lemma SubMultisetLessOne(c: string, h: multiset<string>, d: multiset<string>)
    requires c in d
    ensures multiset{c} + h <= d <==> h <= d - multiset{c}
    ensures d - (multiset{c} + h) == (d - multiset{c}) - h
  {
    if multiset{c} + h <= d {
      forall y
        ensures h[y] <= (d - multiset{c})[y]
      {
        assert (multiset{c} + h)[y] <= d[y];
      }
    }
  }

  /** From a deck without repetitions, the deck left after removing the
      hole cards has no repetitions and none of the hole cards, and every
      card in it was in the deck. */
  lemma RemovedHandLeavesDistinctDeck(d: seq<string>, hand: seq<string>)
    requires Cards.Distinct(d)
    ensures RemoveHand(d, hand).Ok? ==>
              var r := RemoveHand(d, hand).value;
              && Cards.Distinct(r)
              && |r| == |d| - |hand|
              && (forall c :: c in hand ==> c !in r)
              && (forall c :: c in r ==> c in d)
  {
    RemoveHandEffect(d, hand);
    if RemoveHand(d, hand).Ok? {
      var r := RemoveHand(d, hand).value;
      SubMultisetKeepsDistinct(d, r);
      forall c | c in hand
        ensures c !in r
      {
        Cards.DistinctMultiplicity(d, c);
        assert multiset(r)[c] == multiset(d)[c] - multiset(hand)[c];
      }
      forall c | c in r
        ensures c in d
      {
        assert multiset(r)[c] > 0;
      }
    }
  }

  /** Removing the hand from the full deck, as every round does on its own
      copy, succeeds exactly when the hand is distinct cards of the deck. */
  lemma FullDeckRemovalSucceedsIff(hand: seq<string>)
    ensures RemoveHand(InitializeDeck(), hand).Ok? <==>
              Cards.Distinct(hand) && forall c :: c in hand ==> c in InitializeDeck()
  {
    var d := InitializeDeck();
    DeckIsDistinct();
    RemoveHandEffect(d, hand);
    if multiset(hand) <= multiset(d) {
      SubMultisetKeepsDistinct(d, hand);
      forall c | c in hand
        ensures c in d
      {
        assert multiset(hand)[c] > 0;
      }
    }
    if Cards.Distinct(hand) && forall c :: c in hand ==> c in d {
      forall y
        ensures multiset(hand)[y] <= multiset(d)[y]
      {
        Cards.DistinctMultiplicity(hand, y);
        Cards.DistinctMultiplicity(d, y);
      }
    }
  }

  // ---------------------------------------------------------------------
  // Properties of dealing

  /** The filter keeps exactly the cards not dealt, in order. */
  lemma {:induction false} WithoutMembers(d: seq<string>, cards: seq<string>)
    ensures forall x :: x in Without(d, cards) <==> x in d && x !in cards
    ensures Cards.Distinct(d) ==> Cards.Distinct(Without(d, cards))
    ensures |Without(d, cards)| <= |d|
  {
    if |d| > 0 {
      WithoutMembers(d[1..], cards);
      assert forall x :: x in d <==> x == d[0] || x in d[1..];
      if Cards.Distinct(d) {
        assert Cards.Distinct(d[1..]);
        var w := Without(d, cards);
        forall i, j | 0 <= i < j < |w|
          ensures w[i] != w[j]
        {
          if d[0] !in cards {
            assert w[j] == Without(d[1..], cards)[j - 1];
            if i == 0 {
              assert w[j] in d[1..];
            } else {
              assert w[i] == Without(d[1..], cards)[i - 1];
            }
          }
        }
      }
    }
  }

  /** Filtering out two different cards removes one copy of each. */
  lemma {:induction false} WithoutTwoCount(d: seq<string>, a: string, b: string)
    requires a != b
    ensures |Without(d, [a, b])| == |d| - multiset(d)[a] - multiset(d)[b]
  {
    if |d| > 0 {
      WithoutTwoCount(d[1..], a, b);
      assert d == [d[0]] + d[1..];
    }
  }

  /** A sample of k positions takes k cards of the population; from a
      population without repetitions, k different ones. */
  lemma SampleEffect(population: seq<string>, k: nat, picks: seq<nat>)
    requires k <= |population| && ValidSample(picks, k, |population|)
    ensures Sample(population, k, picks).Ok?
    ensures var r := Sample(population, k, picks).value;
            && |r| == k
            && (forall c :: c in r ==> c in population)
            && (Cards.Distinct(population) ==> Cards.Distinct(r))
  {
    var r := Sample(population, k, picks).value;
    forall c | c in r
      ensures c in population
    {
      var i :| 0 <= i < k && r[i] == c;
      assert population[picks[i]] == c;
    }
    if Cards.Distinct(population) {
      forall i, j | 0 <= i < j < k
        ensures r[i] != r[j]
      {
        assert picks[i] != picks[j];
      }
    }
  }

  /** Two cards sampled from a deck without repetitions are two different
      cards of the deck, and filtering them out leaves a deck two cards
      shorter, still without repetitions. */
  lemma SampleOfTwoShrinksDeck(deck: seq<string>, picks: seq<nat>)
    requires Cards.Distinct(deck)
    requires 2 <= |deck| ==> ValidSample(picks, 2, |deck|)
    ensures Sample(deck, 2, picks).Ok? ==>
              var hand := Sample(deck, 2, picks).value;
              && |hand| == 2 && hand[0] != hand[1] && hand[0] in deck && hand[1] in deck
              && |Without(deck, hand)| == |deck| - 2
              && Cards.Distinct(Without(deck, hand))
  {
    if 2 <= |deck| {
      var hand := Sample(deck, 2, picks).value;
      assert hand[0] == deck[picks[0]] && hand[1] == deck[picks[1]];
      assert hand == [hand[0], hand[1]];
      WithoutTwoCount(deck, hand[0], hand[1]);
      Cards.DistinctMultiplicity(deck, hand[0]);
      Cards.DistinctMultiplicity(deck, hand[1]);
      WithoutMembers(deck, hand);
    }
  }

  /** The picks after the first opponent's, for the deck two cards
      shorter. */
  lemma LaterPicks(picks: seq<seq<nat>>, size: int)
    requires |picks| > 0 && ValidOpponentPicks(picks, size + 2)
    ensures ValidOpponentPicks(picks[1..], size)
  {
    forall i | 0 <= i < |picks[1..]| && size - 2 * i >= 2
      ensures ValidSample(picks[1..][i], 2, size - 2 * i)
    {
      assert picks[1..][i] == picks[i + 1];
    }
  }

  /** Hands dealt from a deck, leaving a rest: two different cards each,
      all from the deck, none twice, none left in the rest, and the rest a
      part of the deck without repetitions, two cards shorter per hand. */
  predicate ProperDeal(deck: seq<string>, hands: seq<seq<string>>, rest: seq<string>) {
    && (forall i :: 0 <= i < |hands| ==> |hands[i]| == 2 && hands[i][0] != hands[i][1])
    && (forall i, c :: 0 <= i < |hands| && c in hands[i] ==> c in deck && c !in rest)
    && (forall i, j, c :: 0 <= i < j < |hands| && c in hands[i] ==> c !in hands[j])
    && |rest| == |deck| - 2 * |hands|
    && Cards.Distinct(rest)
    && (forall c :: c in rest ==> c in deck)
  }

  /** Each opponent gets two different cards of the deck; no card is dealt
      twice; the deck left over is 2 cards shorter per opponent and holds
      none of the dealt cards. Dealing fails only when fewer than two
      cards are left for some opponent. */
  lemma {:induction false} DealOpponentsEffect(deck: seq<string>, picks: seq<seq<nat>>)
    requires Cards.Distinct(deck)
    requires ValidOpponentPicks(picks, |deck|)
    ensures DealOpponents(deck, picks).Ok? <==> |picks| == 0 || |deck| - 2 * |picks| >= 0
    ensures DealOpponents(deck, picks).Ok? ==>
              var (hands, rest) := DealOpponents(deck, picks).value;
              |hands| == |picks| && ProperDeal(deck, hands, rest)
    decreases |picks|
  {
    if |picks| == 0 {
      assert ProperDeal(deck, [], deck);
    } else {
      SampleOfTwoShrinksDeck(deck, picks[0]);
      if 2 <= |deck| {
        var hand := Sample(deck, 2, picks[0]).value;
        var rest := Without(deck, hand);
        WithoutMembers(deck, hand);
        LaterPicks(picks, |rest|);
        DealOpponentsEffect(rest, picks[1..]);
        var later := DealOpponents(rest, picks[1..]);
        if later.Ok? {
          assert DealOpponents(deck, picks) == Ok(([hand] + later.value.0, later.value.1));
          DealOneOpponent(deck, hand, rest, later.value.0, later.value.1);
        }
      }
    }
  }

  /** One more hand, dealt before the others from the fuller deck, keeps
      the deal proper. */
  lemma DealOneOpponent(deck: seq<string>, hand: seq<string>, rest: seq<string>,
                        hands: seq<seq<string>>, left: seq<string>)
    requires |hand| == 2 && hand[0] != hand[1] && hand[0] in deck && hand[1] in deck
    requires |rest| == |deck| - 2
    requires forall x :: x in rest <==> x in deck && x !in hand
    requires ProperDeal(rest, hands, left)
    ensures ProperDeal(deck, [hand] + hands, left)
  {
    var all := [hand] + hands;
    assert hand == [hand[0], hand[1]];
    forall i, c | 0 <= i < |all| && c in all[i]
      ensures c in deck && c !in left
    {
      if i > 0 {
        assert all[i] == hands[i - 1];
      }
    }
    forall i, j, c | 0 <= i < j < |all| && c in all[i]
      ensures c !in all[j]
    {
      assert all[j] == hands[j - 1];
      if i > 0 {
        assert all[i] == hands[i - 1];
      }
    }
    forall i | 0 <= i < |all|
      ensures |all[i]| == 2 && all[i][0] != all[i][1]
    {
      if i > 0 {
        assert all[i] == hands[i - 1];
      }
    }
  }

  // ---------------------------------------------------------------------
  // Properties of a round

  /** A tie with the best opponent is a loss: the player wins only with a
      score strictly above every opponent's, and with no opponents max()
      fails. */
  lemma JudgeIsStrict(playerScore: int, opponentScores: seq<int>)
    ensures Judge(playerScore, opponentScores).Err? <==> |opponentScores| == 0
    ensures Judge(playerScore, opponentScores) == Ok(Win) <==>
              |opponentScores| > 0 && forall s :: s in opponentScores ==> playerScore > s
    ensures |opponentScores| > 0 && playerScore in opponentScores ==> Judge(playerScore, opponentScores) == Ok(Lose)
  {
    if |opponentScores| > 0 {
      var m := MaxOf(opponentScores);
      if Judge(playerScore, opponentScores) != Ok(Win) {
        assert m in opponentScores && playerScore <= m;
      }
    }
  }

  /** A round with distinct hole cards from the deck deals every opponent
      two cards and the board five, all different from each other and
      from the hole cards. */
  lemma DealIsDisjoint(hand: seq<string>, numOpponents: int, dr: Draws)
    requires ValidDraws(hand, numOpponents, dr)
    ensures var r := RunSingleSimulation(hand, numOpponents, dr);
            r.Ok? ==>
              && |r.value.opponentHands| == Opponents(numOpponents)
              && |r.value.community| == 5
              && Cards.Distinct(r.value.community)
              && (forall c :: c in r.value.community ==> c !in hand)
              && (forall i, c :: 0 <= i < |r.value.opponentHands| && c in r.value.opponentHands[i] ==>
                    c !in r.value.community && c !in hand)
  {
    var d := InitializeDeck();
    DeckIsDistinct();
    RemovedHandLeavesDistinctDeck(d, hand);
    var r := RunSingleSimulation(hand, numOpponents, dr);
    if r.Ok? {
      var deckCopy := RemoveHand(d, hand).value;
      DealOpponentsEffect(deckCopy, dr.opponentPicks);
      var (hands, rest) := DealOpponents(deckCopy, dr.opponentPicks).value;
      SampleEffect(rest, 5, dr.communityPicks);
      var community := Sample(rest, 5, dr.communityPicks).value;
      assert r.value.opponentHands == hands && r.value.community == community;
    }
  }

  /** A round fails exactly when the hole cards are not distinct cards of
      the deck, the deck runs short, or there are no opponents. */
  lemma RoundErrors(hand: seq<string>, numOpponents: int, dr: Draws)
    requires ValidDraws(hand, numOpponents, dr)
    ensures RunSingleSimulation(hand, numOpponents, dr).Ok? <==>
              && Cards.Distinct(hand) && (forall c :: c in hand ==> c in InitializeDeck())
              && 52 - |hand| - 2 * Opponents(numOpponents) >= 5
              && numOpponents > 0
    ensures RunSingleSimulation(hand, numOpponents, dr).Ok? ==>
              (RunSingleSimulation(hand, numOpponents, dr).value.outcome == Win <==>
                 forall s :: s in dr.opponentScores ==> dr.playerScore > s)
  {
    var d := InitializeDeck();
    DeckIsDistinct();
    FullDeckRemovalSucceedsIff(hand);
    RemovedHandLeavesDistinctDeck(d, hand);
    JudgeIsStrict(dr.playerScore, dr.opponentScores);
    if RemoveHand(d, hand).Ok? {
      var deckCopy := RemoveHand(d, hand).value;
      DealOpponentsEffect(deckCopy, dr.opponentPicks);
    }
  }

  // ---------------------------------------------------------------------
  // Properties of the simulation

  /** No more rounds are won than were played. */
  lemma {:induction false} WinCountBounded(hand: seq<string>, numOpponents: int, draws: seq<Draws>)
    requires forall i :: 0 <= i < |draws| ==> ValidDraws(hand, numOpponents, draws[i])
    ensures WinCount(hand, numOpponents, draws).Ok? ==> WinCount(hand, numOpponents, draws).value <= |draws|
  {
    if |draws| > 0 {
      WinCountBounded(hand, numOpponents, draws[..|draws| - 1]);
    }
  }

  /** The estimate is a share of rounds: it lies between 0 and 1, and it
      is 0 when no rounds run because the count is negative. */
  lemma SimulateIsAShare(hand: seq<string>, numOpponents: int, numSimulations: int, draws: seq<Draws>)
    requires |draws| == (if numSimulations < 0 then 0 else numSimulations)
    requires forall i :: 0 <= i < |draws| ==> ValidDraws(hand, numOpponents, draws[i])
    ensures numSimulations == 0 ==> Simulate(hand, numOpponents, numSimulations, draws) == Err(NoSimulations)
    ensures numSimulations < 0 ==> Simulate(hand, numOpponents, numSimulations, draws) == Ok(0.0)
    ensures Simulate(hand, numOpponents, numSimulations, draws).Ok? ==>
              0.0 <= Simulate(hand, numOpponents, numSimulations, draws).value <= 1.0
  {
    WinCountBounded(hand, numOpponents, draws);
    var r := Simulate(hand, numOpponents, numSimulations, draws);
    if r.Ok? && numSimulations > 0 {
      ShareBounds(WinCount(hand, numOpponents, draws).value, numSimulations);
    }
  }

  lemma ShareBounds(w: nat, n: nat)
    requires 0 < n && w <= n
    ensures 0.0 <= w as real / n as real <= 1.0
  {
    var q := w as real / n as real;
    assert q * n as real == w as real;
  }

  /** The example hand, ace of hearts and king of spades, is made of two
      distinct cards of the deck. */
  lemma ExampleHandIsInDeck()
    ensures "A_of_hearts" == DeckName(Cards.Card(14, Cards.Hearts))
    ensures "K_of_spades" == DeckName(Cards.Card(13, Cards.Spades))
    ensures "A_of_hearts" in InitializeDeck() && "K_of_spades" in InitializeDeck()
  {
    assert CardAt(12) == Cards.Card(14, Cards.Hearts);
    assert CardAt(50) == Cards.Card(13, Cards.Spades);
    assert InitializeDeck()[12] == "A_of_hearts";
    assert InitializeDeck()[50] == "K_of_spades";
  }
}
