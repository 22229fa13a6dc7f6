/** The agent's state vector: two encoded hole cards, five (zero-padded)
    encoded community cards, the pot and the current bet, then three
    numbers per player. Cards are written "AS", "TS", "9H": a rank letter
    or digit and a suit letter; a card codes as rank * 10 + suit. */
module StateRepresentation {
  import opened Wrappers
  import Cards
  import PokerEnvironment

  /** The lookups that can fail: card[0] or card[1] past the end of the
      string (IndexError), or a character missing from a table (KeyError). */
  datatype EncodeError = IndexOutOfRange | UnknownRank(r: char) | UnknownSuit(s: char)

  /** One player's entry of player_data. */
  datatype Player = Player(stack: real, currentBet: real, isActive: bool)

  /** get_state_size */
  function GetStateSize(numPlayers: nat): nat {
    2 + 5 + 1 + 1 + 3 * numPlayers
  }

  /** rank_conversion */
  function RankCode(c: char): Option<int> {
    match c
    case '2' => Some(2) case '3' => Some(3) case '4' => Some(4) case '5' => Some(5)
    case '6' => Some(6) case '7' => Some(7) case '8' => Some(8) case '9' => Some(9)
    case 'T' => Some(10) case 'J' => Some(11) case 'Q' => Some(12) case 'K' => Some(13)
    case 'A' => Some(14)
    case _ => None
  }

  /** suit_conversion */
  function SuitCode(c: char): Option<int> {
    match c
    case 'H' => Some(1) case 'D' => Some(2) case 'C' => Some(3) case 'S' => Some(4)
    case _ => None
  }

  /** encode_card: the rank is looked up before the second character is
      read; characters after the second are ignored. */
  function EncodeCard(card: string): Result<int, EncodeError> {
    if |card| == 0 then Err(IndexOutOfRange)
    else if RankCode(card[0]).None? then Err(UnknownRank(card[0]))
    else if |card| < 2 then Err(IndexOutOfRange)
    else if SuitCode(card[1]).None? then Err(UnknownSuit(card[1]))
    else Ok(RankCode(card[0]).value * 10 + SuitCode(card[1]).value)
  }

  /** The list comprehension over encode_card: the first failure wins. */
  function EncodeCards(cards: seq<string>): Result<seq<int>, EncodeError> {
    if |cards| == 0 then Ok([])
    else
      var c :- EncodeCard(cards[0]);
      var rest :- EncodeCards(cards[1..]);
      Ok([c] + rest)
  }

  /** encode_hand */
  function EncodeHand(hand: seq<string>): Result<seq<int>, EncodeError> {
    EncodeCards(hand)
  }

  /** Zeros appended until the list has five entries. */
  function PadToFive(codes: seq<int>): seq<int> {
    if |codes| >= 5 then codes else codes + seq(5 - |codes|, _ => 0)
  }

  /** encode_community_cards */
  function EncodeCommunityCards(community: seq<string>): Result<seq<int>, EncodeError> {
    var codes :- EncodeCards(community);
    Ok(PadToFive(codes))
  }

  /** encode_players: stack, current bet, 1 or 0 for active, per player. */
  function EncodePlayers(players: seq<Player>): seq<real> {
    if |players| == 0 then []
    else
      var p := players[0];
      [p.stack, p.currentBet, if p.isActive then 1.0 else 0.0] + EncodePlayers(players[1..])
  }

  function AsReals(codes: seq<int>): seq<real> {
    seq(|codes|, i requires 0 <= i < |codes| => codes[i] as real)
  }

  /** get_state_representation */
  function GetStateRepresentation(hand: seq<string>, community: seq<string>, potSize: real,
                                  currentBet: real, players: seq<Player>): Result<seq<real>, EncodeError> {
    var h :- EncodeHand(hand);
    var c :- EncodeCommunityCards(community);
    Ok(AsReals(h) + AsReals(c) + [potSize, currentBet] + EncodePlayers(players))
  }

  // ---------------------------------------------------------------------
  // The card code

  /** The rank character the encoder expects: 'T' for ten. */
  function RankChar(r: Cards.Rank): char {
    if r == 14 then 'A' else if r == 13 then 'K' else if r == 12 then 'Q'
    else if r == 11 then 'J' else if r == 10 then 'T'
    else ('0' as int + r) as char
  }

  /** A card in the encoder's format: "AS", "TS", "9H". */
  function CardText(c: Cards.Card): string {
    [RankChar(c.rank), Cards.SuitLetter(c.suit)]
  }

  function Code(c: Cards.Card): int {
    c.rank * 10 + Cards.SuitIndex(c.suit) + 1
  }

  /** The card a code stands for: the tens give the rank, the units the
      suit. */
  function DecodeCard(code: int): Option<Cards.Card> {
    var r, s := code / 10, code % 10;
    if 2 <= r <= 14 && 1 <= s <= 4 then Some(Cards.Card(r, Cards.SuitAt(s - 1))) else None
  }

  /** Every card written in the encoder's format encodes as rank * 10 +
      suit (H = 1, D = 2, C = 3, S = 4), and decoding the code gives the
      card back. */
  lemma EncodeDecodeRoundTrip(c: Cards.Card)
    ensures EncodeCard(CardText(c)) == Ok(Code(c))
    ensures DecodeCard(Code(c)) == Some(c)
  {
    var i := Cards.SuitIndex(c.suit);
    assert Code(c) / 10 == c.rank && Code(c) % 10 == i + 1;
  }

  /** The code is injective: equal codes come from the same rank character
      and the same suit character. */
  lemma EncodeCardInjective(a: string, b: string)
    requires EncodeCard(a).Ok? && EncodeCard(b).Ok? && EncodeCard(a) == EncodeCard(b)
    ensures a[0] == b[0] && a[1] == b[1]
  {
    var ra, sa := RankCode(a[0]).value, SuitCode(a[1]).value;
    var rb, sb := RankCode(b[0]).value, SuitCode(b[1]).value;
    assert ra * 10 + sa == rb * 10 + sb;
    assert ra == rb && sa == sb;
  }

  /** encode_card fails exactly when the string is too short or a lookup
      misses, and reports which. */
  lemma EncodeCardErrors(card: string)
    ensures |card| == 0 ==> EncodeCard(card) == Err(IndexOutOfRange)
    ensures |card| > 0 && RankCode(card[0]).None? ==> EncodeCard(card) == Err(UnknownRank(card[0]))
    ensures |card| == 1 && RankCode(card[0]).Some? ==> EncodeCard(card) == Err(IndexOutOfRange)
    ensures |card| >= 2 && RankCode(card[0]).Some? && SuitCode(card[1]).None? ==>
              EncodeCard(card) == Err(UnknownSuit(card[1]))
    ensures EncodeCard(card).Ok? <==> |card| >= 2 && RankCode(card[0]).Some? && SuitCode(card[1]).Some?
  {
  }

  /** The table's own card names ("10 of Hearts", "J of Spades") never
      encode: a ten starts with '1', any other rank is followed by a
      space. */
  lemma TableCardNamesDoNotEncode(c: Cards.Card)
    ensures EncodeCard(PokerEnvironment.CardName(c)).Err?
  {
    var name := PokerEnvironment.CardName(c);
    if c.rank == 10 {
      assert name[0] == '1';
    } else {
      assert name[1] == ' ';
    }
  }

  // ---------------------------------------------------------------------
  // Layout

  /** Encoding a list of cards encodes each card in place. */
  lemma {:induction false} EncodeCardsPointwise(cards: seq<string>)
    ensures EncodeCards(cards).Ok? <==> forall i :: 0 <= i < |cards| ==> EncodeCard(cards[i]).Ok?
    ensures EncodeCards(cards).Ok? ==>
              |EncodeCards(cards).value| == |cards|
              && forall i :: 0 <= i < |cards| ==> EncodeCards(cards).value[i] == EncodeCard(cards[i]).value
  {
    if |cards| > 0 {
      EncodeCardsPointwise(cards[1..]);
      assert forall i :: 1 <= i < |cards| ==> cards[i] == cards[1..][i - 1];
    }
  }

  /** Padding keeps the codes as a prefix and fills with zeros up to five;
      from at most five codes it gives exactly five. */
  lemma PadToFiveEffect(codes: seq<int>)
    ensures |PadToFive(codes)| == if |codes| >= 5 then |codes| else 5
    ensures PadToFive(codes)[..|codes|] == codes
    ensures forall i :: |codes| <= i < |PadToFive(codes)| ==> PadToFive(codes)[i] == 0
  {
  }

  /** Three numbers per player, in order stack, bet, activity flag. */
  lemma {:induction false} EncodePlayersLayout(players: seq<Player>)
    ensures |EncodePlayers(players)| == 3 * |players|
    ensures forall i :: 0 <= i < |players| ==>
              && EncodePlayers(players)[3 * i] == players[i].stack
              && EncodePlayers(players)[3 * i + 1] == players[i].currentBet
              && EncodePlayers(players)[3 * i + 2] == (if players[i].isActive then 1.0 else 0.0)
  {
    if |players| > 0 {
      EncodePlayersLayout(players[1..]);
      var rest := EncodePlayers(players[1..]);
      forall i | 1 <= i < |players|
        ensures EncodePlayers(players)[3 * i] == players[i].stack
        ensures EncodePlayers(players)[3 * i + 1] == players[i].currentBet
        ensures EncodePlayers(players)[3 * i + 2] == (if players[i].isActive then 1.0 else 0.0)
      {
        assert players[i] == players[1..][i - 1];
        assert EncodePlayers(players)[3 * i] == rest[3 * (i - 1)];
        assert EncodePlayers(players)[3 * i + 1] == rest[3 * (i - 1) + 1];
        assert EncodePlayers(players)[3 * i + 2] == rest[3 * (i - 1) + 2];
      }
    }
  }

  /** With two hole cards, at most five community cards and one entry per
      seat, the state vector has exactly get_state_size() entries, laid
      out as hand, padded community, pot, current bet, players. */
  lemma StateVectorLayout(hand: seq<string>, community: seq<string>, potSize: real,
                          currentBet: real, players: seq<Player>)
    requires |hand| == 2 && |community| <= 5
    requires forall c :: c in hand + community ==> EncodeCard(c).Ok?
    ensures GetStateRepresentation(hand, community, potSize, currentBet, players).Ok?
    ensures var v := GetStateRepresentation(hand, community, potSize, currentBet, players).value;
            && |v| == GetStateSize(|players|)
            && v[0] == EncodeCard(hand[0]).value as real
            && v[1] == EncodeCard(hand[1]).value as real
            && (forall i :: 0 <= i < |community| ==> v[2 + i] == EncodeCard(community[i]).value as real)
            && (forall j :: 2 + |community| <= j < 7 ==> v[j] == 0.0)
            && v[7] == potSize && v[8] == currentBet
            && v[9..] == EncodePlayers(players)
  {
    StateVectorParts(hand, community, potSize, currentBet, players);
    HandCodes(hand);
    CommunityCodes(community);
    var a := AsReals(EncodeCards(hand).value);
    var b := AsReals(PadToFive(EncodeCards(community).value));
    var v := a + b + [potSize, currentBet] + EncodePlayers(players);
    VectorParts(a, b, [potSize, currentBet], EncodePlayers(players));
    assert forall i :: 0 <= i < |community| ==> v[2 + i] == b[i];
    assert forall j :: 2 + |community| <= j < 7 ==> v[j] == b[j - 2];
  }

  /** With every card encodable, the vector is the four parts in order. */
  lemma StateVectorParts(hand: seq<string>, community: seq<string>, potSize: real,
                         currentBet: real, players: seq<Player>)
    requires forall c :: c in hand + community ==> EncodeCard(c).Ok?
    ensures EncodeCards(hand).Ok? && EncodeCards(community).Ok?
    ensures GetStateRepresentation(hand, community, potSize, currentBet, players)
         == Ok(AsReals(EncodeCards(hand).value) + AsReals(PadToFive(EncodeCards(community).value))
               + [potSize, currentBet] + EncodePlayers(players))
  {
    assert forall i :: 0 <= i < |hand| ==> hand[i] in hand + community;
    assert forall i :: 0 <= i < |community| ==> community[i] in hand + community;
    EncodeCardsPointwise(hand);
    EncodeCardsPointwise(community);
  }

  /** Two encodable hole cards give two codes, in order. */
  lemma HandCodes(hand: seq<string>)
    requires |hand| == 2 && EncodeCards(hand).Ok?
    ensures var a := AsReals(EncodeCards(hand).value);
            |a| == 2 && EncodeCard(hand[0]).Ok? && EncodeCard(hand[1]).Ok?
            && a[0] == EncodeCard(hand[0]).value as real
            && a[1] == EncodeCard(hand[1]).value as real
  {
    EncodeCardsPointwise(hand);
  }

  /** At most five encodable community cards give five codes: theirs in
      order, then zeros. */
  lemma CommunityCodes(community: seq<string>)
    requires |community| <= 5 && EncodeCards(community).Ok?
    ensures var b := AsReals(PadToFive(EncodeCards(community).value));
            && |b| == 5
            && (forall i :: 0 <= i < |community| ==>
                  EncodeCard(community[i]).Ok? && b[i] == EncodeCard(community[i]).value as real)
            && (forall j :: |community| <= j < 5 ==> b[j] == 0.0)
  {
    EncodeCardsPointwise(community);
    PadToFiveEffect(EncodeCards(community).value);
  }

  /** Where each part of a hand-community-bets-players vector sits. */
  lemma VectorParts(a: seq<real>, b: seq<real>, m: seq<real>, p: seq<real>)
    requires |a| == 2 && |b| == 5 && |m| == 2
    ensures var v := a + b + m + p;
            && |v| == 9 + |p|
            && v[0] == a[0] && v[1] == a[1]
            && (forall i :: 0 <= i < 5 ==> v[2 + i] == b[i])
            && v[7] == m[0] && v[8] == m[1]
            && v[9..] == p
  {
  }
}
