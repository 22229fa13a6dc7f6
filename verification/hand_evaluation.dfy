/** Post-flop hand evaluator: rank/suit counting predicates over card
    strings such as "9H" or "10H" (rank text, then a one-letter suit), and a
    strongest-first category cascade that returns the first category that
    matches. */
module HandEvaluation {
  import opened Wrappers
  import Cards
  import Vectors

  datatype Category =
    | HighCard | OnePair | TwoPair | ThreeOfAKind | Straight
    | Flush | FullHouse | FourOfAKind | StraightFlush | RoyalFlush

  /** The HAND_RANKINGS table: the value of each category, 1 for High Card
      up to 10 for Royal Flush. */
  function Value(c: Category): int {
    match c
    case HighCard => 1
    case OnePair => 2
    case TwoPair => 3
    case ThreeOfAKind => 4
    case Straight => 5
    case Flush => 6
    case FullHouse => 7
    case FourOfAKind => 8
    case StraightFlush => 9
    case RoyalFlush => 10
  }

  /** The "type" string the evaluator reports for each category. */
  function TypeName(c: Category): string {
    match c
    case HighCard => "High Card"
    case OnePair => "One Pair"
    case TwoPair => "Two Pair"
    case ThreeOfAKind => "Three of a Kind"
    case Straight => "Straight"
    case Flush => "Flush"
    case FullHouse => "Full House"
    case FourOfAKind => "Four of a Kind"
    case StraightFlush => "Straight Flush"
    case RoyalFlush => "Royal Flush"
  }

  /** The "cards" entry of a result: either card strings (royal and straight
      flush, flush) or rank values (the others). */
  datatype Shown = CardList(cards: seq<string>) | RankList(ranks: seq<int>)

  datatype BestHand = BestHand(category: Category, shown: Shown)

  /** What makes the evaluator raise: an empty card list (`max` of an empty
      sequence), a card whose suit or rank cannot be read, and the call to
      the undefined `get_two_pair`. */
  datatype EvalError = NoCards | MalformedCard | UndefinedGetTwoPair

  // ---------------------------------------------------------------------
  // card_value

  predicate IsDigit(c: char) { '0' <= c <= '9' }

  predicate AllDigits(s: string) {
    forall i :: 0 <= i < |s| ==> IsDigit(s[i])
  }

  function DigitValue(c: char): nat
    requires IsDigit(c)
  {
    c as int - '0' as int
  }

  function DigitChar(d: nat): char
    requires d < 10
  {
    ('0' as int + d) as char
  }

  /** `int(text)` on a string of decimal digits, read left to right. */
  function ParseDecimal(s: string): nat
    requires AllDigits(s)
  {
    if |s| == 0 then 0 else ParseDecimal(s[..|s| - 1]) * 10 + DigitValue(s[|s| - 1])
  }

  /** The decimal text of a natural number. */
  function DecimalText(n: nat): (s: string)
    ensures |s| > 0 && AllDigits(s)
  {
    if n < 10 then [DigitChar(n)] else DecimalText(n / 10) + [DigitChar(n % 10)]
  }

  lemma {:induction false} DecimalRoundTrip(n: nat)
    ensures ParseDecimal(DecimalText(n)) == n
  {
    if n >= 10 {
      var s := DecimalText(n);
      assert s[..|s| - 1] == DecimalText(n / 10);
      DecimalRoundTrip(n / 10);
    }
  }

  /** card_value: "A" -> 14, "K" -> 13, "Q" -> 12, "J" -> 11, otherwise
      the integer the text spells; `None` where `int()` raises. */
  function CardValue(rank: string): Option<int> {
    if rank == "A" then Some(14)
    else if rank == "K" then Some(13)
    else if rank == "Q" then Some(12)
    else if rank == "J" then Some(11)
    else if |rank| > 0 && AllDigits(rank) then Some(ParseDecimal(rank))
    else None
  }

  /** Every numeric rank string is read as the number it spells. */
  lemma CardValueOfNumber(n: nat)
    ensures CardValue(DecimalText(n)) == Some(n)
  {
    var s := DecimalText(n);
    assert IsDigit(s[0]);
    DecimalRoundTrip(n);
  }

  /** The rank text every module writes is read back as its rank: the face
      letters as 11..14 and "2".."10" as numbers. */
  lemma CardValueOfRankText(r: Cards.Rank)
    ensures CardValue(Cards.RankText(r)) == Some(r as int)
  {
    if r <= 9 {
      assert Cards.RankText(r) == DecimalText(r);
      CardValueOfNumber(r);
    } else if r == 10 {
      assert Cards.RankText(r) == DecimalText(10);
      CardValueOfNumber(10);
    }
  }

  /** The text "T" used by the state encoder is not a rank here. */
  lemma TenAsLetterIsRejected()
    ensures CardValue("T") == None
  {
    assert !IsDigit("T"[0]);
  }

  // ---------------------------------------------------------------------
  // Reading cards: card[-1] is the suit, card[:-1] the rank text.

  predicate WellFormed(card: string) {
    |card| > 0 && CardValue(card[..|card| - 1]).Some?
  }

  predicate AllWellFormed(cards: seq<string>) {
    forall i :: 0 <= i < |cards| ==> WellFormed(cards[i])
  }

  function SuitOf(card: string): char
    requires |card| > 0
  {
    card[|card| - 1]
  }

  function RankOf(card: string): int
    requires WellFormed(card)
  {
    CardValue(card[..|card| - 1]).value
  }

  function RankValues(cards: seq<string>): (r: seq<int>)
    requires AllWellFormed(cards)
  {
    seq(|cards|, i requires 0 <= i < |cards| && AllWellFormed(cards) => RankOf(cards[i]))
  }

  function SuitLetters(cards: seq<string>): (r: seq<char>)
    requires AllWellFormed(cards)
  {
    seq(|cards|, i requires 0 <= i < |cards| && AllWellFormed(cards) => SuitOf(cards[i]))
  }

  /** A card in the evaluator's format: rank text then suit letter, "9H",
      "10H", "KD". */
  function CardText(c: Cards.Card): string {
    Cards.RankText(c.rank) + [Cards.SuitLetter(c.suit)]
  }

  function CardTexts(cs: seq<Cards.Card>): seq<string> {
    seq(|cs|, i requires 0 <= i < |cs| => CardText(cs[i]))
  }

  /** The evaluator reads back the rank and suit of every card written in
      its format. */
  lemma ReadCardText(c: Cards.Card)
    ensures WellFormed(CardText(c))
    ensures RankOf(CardText(c)) == c.rank as int && SuitOf(CardText(c)) == Cards.SuitLetter(c.suit)
  {
    var t := CardText(c);
    assert t[..|t| - 1] == Cards.RankText(c.rank);
    CardValueOfRankText(c.rank);
  }

  lemma ReadCardTexts(cs: seq<Cards.Card>)
    ensures AllWellFormed(CardTexts(cs))
    ensures RankValues(CardTexts(cs)) == seq(|cs|, i requires 0 <= i < |cs| => cs[i].rank as int)
    ensures SuitLetters(CardTexts(cs)) == seq(|cs|, i requires 0 <= i < |cs| => Cards.SuitLetter(cs[i].suit))
  {
    forall i | 0 <= i < |cs|
      ensures WellFormed(CardTexts(cs)[i])
      ensures RankOf(CardTexts(cs)[i]) == cs[i].rank as int
      ensures SuitOf(CardTexts(cs)[i]) == Cards.SuitLetter(cs[i].suit)
    {
      ReadCardText(cs[i]);
    }
  }

  /** Reading the cards without the one at position k reads the same
      ranks and suits less that card's. */
  lemma ReadWithout(b: seq<string>, k: nat)
    requires AllWellFormed(b) && k < |b|
    ensures AllWellFormed(b[..k] + b[k + 1..])
    ensures multiset(RankValues(b)) == multiset{RankOf(b[k])} + multiset(RankValues(b[..k] + b[k + 1..]))
    ensures multiset(SuitLetters(b)) == multiset{SuitOf(b[k])} + multiset(SuitLetters(b[..k] + b[k + 1..]))
  {
    var rest := b[..k] + b[k + 1..];
    assert forall i :: 0 <= i < |rest| ==> rest[i] == if i < k then b[i] else b[i + 1];
    var ranks := RankValues(b);
    var suits := SuitLetters(b);
    Cards.RemoveAt(ranks, k);
    Cards.RemoveAt(suits, k);
    assert ranks[..k] + ranks[k + 1..] == RankValues(rest);
    assert suits[..k] + suits[k + 1..] == SuitLetters(rest);
  }

  lemma PermutationKeepsWellFormed(a: seq<string>, b: seq<string>)
    requires AllWellFormed(a) && multiset(a) == multiset(b)
    ensures AllWellFormed(b)
  {
    forall i | 0 <= i < |b|
      ensures WellFormed(b[i])
    {
      assert b[i] in multiset(a);
    }
  }

  /** Reading a hand reads its first card, then the rest. */
  lemma ReadFirst(a: seq<string>)
    requires AllWellFormed(a) && |a| > 0
    ensures AllWellFormed(a[1..])
    ensures multiset(RankValues(a)) == multiset{RankOf(a[0])} + multiset(RankValues(a[1..]))
    ensures multiset(SuitLetters(a)) == multiset{SuitOf(a[0])} + multiset(SuitLetters(a[1..]))
  {
    assert RankValues(a) == [RankOf(a[0])] + RankValues(a[1..]);
    assert SuitLetters(a) == [SuitOf(a[0])] + SuitLetters(a[1..]);
  }

  /** The first card of a is somewhere in its rearrangement b; taking it
      out of both leaves rearrangements of each other. */
  lemma MatchFirst(a: seq<string>, b: seq<string>) returns (k: nat)
    requires |a| > 0 && multiset(a) == multiset(b)
    ensures k < |b| && b[k] == a[0]
    ensures multiset(a[1..]) == multiset(b[..k] + b[k + 1..])
  {
    var x := a[0];
    assert x in multiset(b);
    k :| 0 <= k < |b| && b[k] == x;
    var rest := b[..k] + b[k + 1..];
    Cards.RemoveAt(b, k);
    assert multiset([x] + rest) == multiset(b);
    Cards.TailMultiset(a, [x] + rest);
    assert ([x] + rest)[1..] == rest;
  }

  /** Reordering the cards reorders their ranks and suits. */
  lemma {:induction false} ReadingIsPermutationInvariant(a: seq<string>, b: seq<string>)
    requires AllWellFormed(a) && multiset(a) == multiset(b)
    ensures AllWellFormed(b)
    ensures multiset(RankValues(a)) == multiset(RankValues(b))
    ensures multiset(SuitLetters(a)) == multiset(SuitLetters(b))
    decreases |a|
  {
    PermutationKeepsWellFormed(a, b);
    if |a| == 0 {
      assert |b| == |multiset(b)| == 0;
    } else {
      var k := MatchFirst(a, b);
      var rest := b[..k] + b[k + 1..];
      ReadWithout(b, k);
      ReadFirst(a);
      ReadingIsPermutationInvariant(a[1..], rest);
    }
  }

  // ---------------------------------------------------------------------
  // Counting

  /** list.count(x) */
  function Count<T(==)>(s: seq<T>, x: T): nat {
    if |s| == 0 then 0 else (if s[0] == x then 1 else 0) + Count(s[1..], x)
  }

  lemma {:induction false} CountIsMultiplicity<T>(s: seq<T>, x: T)
    ensures Count(s, x) == multiset(s)[x]
  {
    if |s| > 0 {
      assert s == [s[0]] + s[1..];
      CountIsMultiplicity(s[1..], x);
    }
  }

  /** Counting past the first element. */
  lemma CountCons<T>(a: T, s: seq<T>, x: T)
    ensures Count([a] + s, x) == (if a == x then 1 else 0) + Count(s, x)
  {
    assert ([a] + s)[1..] == s;
  }

  /** The count over seven cards, one term per card. */
  lemma CountOfSeven<T>(s: seq<T>, x: T)
    requires |s| == 7
    ensures Count(s, x)
         == (if s[0] == x then 1 else 0) + (if s[1] == x then 1 else 0) + (if s[2] == x then 1 else 0)
          + (if s[3] == x then 1 else 0) + (if s[4] == x then 1 else 0) + (if s[5] == x then 1 else 0)
          + (if s[6] == x then 1 else 0)
  {
    var k6 := Count(s[6..], x);
    assert k6 == (if s[6] == x then 1 else 0) by {
      CountDrop(s, 6, x);
      assert s[7..] == [];
    }
    var k5 := Count(s[5..], x);
    assert k5 == (if s[5] == x then 1 else 0) + k6 by { CountDrop(s, 5, x); }
    var k4 := Count(s[4..], x);
    assert k4 == (if s[4] == x then 1 else 0) + k5 by { CountDrop(s, 4, x); }
    var k3 := Count(s[3..], x);
    assert k3 == (if s[3] == x then 1 else 0) + k4 by { CountDrop(s, 3, x); }
    var k2 := Count(s[2..], x);
    assert k2 == (if s[2] == x then 1 else 0) + k3 by { CountDrop(s, 2, x); }
    var k1 := Count(s[1..], x);
    assert k1 == (if s[1] == x then 1 else 0) + k2 by { CountDrop(s, 1, x); }
    assert Count(s, x) == (if s[0] == x then 1 else 0) + k1;
  }

  /** Counting from position i on: the entry at i, then the rest. */
  lemma CountDrop<T>(s: seq<T>, i: nat, x: T)
    requires i < |s|
    ensures Count(s[i..], x) == (if s[i] == x then 1 else 0) + Count(s[i + 1..], x)
  {
    assert s[i..][0] == s[i];
    assert s[i..][1..] == s[i + 1..];
  }

  /** An element counted at least once sits at some position. */
  lemma {:induction false} CountedIsPresent<T>(s: seq<T>, x: T) returns (p: nat)
    requires Count(s, x) >= 1
    ensures p < |s| && s[p] == x
  {
    if s[0] == x {
      p := 0;
    } else {
      var r := CountedIsPresent(s[1..], x);
      p := r + 1;
    }
  }

  /** An element counted at least twice sits at two positions. */
  lemma {:induction false} CountedTwice<T>(s: seq<T>, x: T) returns (p: nat, q: nat)
    requires Count(s, x) >= 2
    ensures p < q < |s| && s[p] == x && s[q] == x
  {
    if s[0] == x {
      var r := CountedIsPresent(s[1..], x);
      p, q := 0, r + 1;
    } else {
      var p', q' := CountedTwice(s[1..], x);
      p, q := p' + 1, q' + 1;
    }
  }

  /** max(all.count(x) for x in xs), with 0 for no xs. */
  function MaxCount<T(==)>(all: seq<T>, xs: seq<T>): nat {
    if |xs| == 0 then 0 else Vectors.MaxInt(Count(all, xs[0]), MaxCount(all, xs[1..]))
  }

  lemma {:induction false} MaxCountBounds<T>(all: seq<T>, xs: seq<T>, i: nat)
    requires i < |xs|
    ensures Count(all, xs[i]) <= MaxCount(all, xs)
  {
    if i > 0 {
      MaxCountBounds(all, xs[1..], i - 1);
    }
  }

  lemma {:induction false} MaxCountAttained<T>(all: seq<T>, xs: seq<T>)
    requires |xs| > 0
    ensures exists i :: 0 <= i < |xs| && Count(all, xs[i]) == MaxCount(all, xs)
  {
    if |xs| == 1 || Count(all, xs[0]) >= MaxCount(all, xs[1..]) {
      assert Count(all, xs[0]) == MaxCount(all, xs);
    } else {
      MaxCountAttained(all, xs[1..]);
      var i :| 0 <= i < |xs| - 1 && Count(all, xs[1..][i]) == MaxCount(all, xs[1..]);
      assert Count(all, xs[i + 1]) == MaxCount(all, xs);
    }
  }

  // ---------------------------------------------------------------------
  // Flush

  /** is_flush: the most frequent suit occurs at least five times. */
  predicate IsFlush(suits: seq<char>) {
    MaxCount(suits, suits) >= 5
  }

  /** A flush is exactly a suit occurring at least five times. */
  lemma IsFlushIff(suits: seq<char>)
    ensures IsFlush(suits) <==> exists s :: Count(suits, s) >= 5
  {
    if IsFlush(suits) {
      MaxCountAttained(suits, suits);
      var i :| 0 <= i < |suits| && Count(suits, suits[i]) == MaxCount(suits, suits);
      assert Count(suits, suits[i]) >= 5;
    }
    if exists s :: Count(suits, s) >= 5 {
      var s :| Count(suits, s) >= 5;
      CountIsMultiplicity(suits, s);
      assert s in multiset(suits);
      var i :| 0 <= i < |suits| && suits[i] == s;
      MaxCountBounds(suits, suits, i);
    }
  }

  // ---------------------------------------------------------------------
  // Sorting (Python's `sorted` on integers)

  predicate SortedAsc(s: seq<int>) {
    forall i, j :: 0 <= i < j < |s| ==> s[i] <= s[j]
  }

  predicate SortedDesc(s: seq<int>) {
    forall i, j :: 0 <= i < j < |s| ==> s[i] >= s[j]
  }

  function Insert(x: int, s: seq<int>): seq<int> {
    if |s| == 0 then [x]
    else if x <= s[0] then [x] + s
    else [s[0]] + Insert(x, s[1..])
  }

  /** sorted(s): insertion sort. Its correctness is `SortIsSorted`. */
  function Sort(s: seq<int>): seq<int> {
    if |s| == 0 then [] else Insert(s[0], Sort(s[1..]))
  }

  /** Insertion adds exactly x, and the result starts with x or with the
      old first element. */
  lemma {:induction false} InsertKeepsElements(x: int, s: seq<int>)
    ensures var r := Insert(x, s);
            multiset(r) == multiset(s) + multiset{x}
            && |r| == |s| + 1 && (r[0] == x || (|s| > 0 && r[0] == s[0]))
  {
    if |s| > 0 && x > s[0] {
      assert s == [s[0]] + s[1..];
      InsertKeepsElements(x, s[1..]);
    }
  }

  lemma {:induction false} InsertIsSorted(x: int, s: seq<int>)
    requires SortedAsc(s)
    ensures var r := Insert(x, s);
            SortedAsc(r) && multiset(r) == multiset(s) + multiset{x}
            && |r| == |s| + 1 && (r[0] == x || (|s| > 0 && r[0] == s[0]))
  {
    InsertKeepsElements(x, s);
    if |s| > 0 && x > s[0] {
      var t := s[1..];
      InsertIsSorted(x, t);
      var r' := Insert(x, t);
      assert Insert(x, s) == [s[0]] + r';
      assert r'[0] == x || (|t| > 0 && r'[0] == t[0] && s[0] <= s[1]);
      forall j | 0 <= j < |r'|
        ensures s[0] <= r'[j]
      {
        assert r'[0] <= r'[j];
      }
    }
  }

  /** sorted() returns the same ranks in ascending order. */
  lemma {:induction false} SortIsSorted(s: seq<int>)
    ensures SortedAsc(Sort(s)) && multiset(Sort(s)) == multiset(s)
  {
    if |s| > 0 {
      assert s == [s[0]] + s[1..];
      SortIsSorted(s[1..]);
      InsertIsSorted(s[0], Sort(s[1..]));
    }
  }

  lemma SortedHeadIsMin(a: seq<int>, y: int)
    requires SortedAsc(a) && y in a
    ensures a[0] <= y
  {
    var i :| 0 <= i < |a| && a[i] == y;
    if i > 0 {
      assert a[0] <= a[i];
    }
  }

  /** A sorted arrangement of given elements is unique. */
  lemma {:induction false} SortedUnique(a: seq<int>, b: seq<int>)
    requires SortedAsc(a) && SortedAsc(b) && multiset(a) == multiset(b)
    ensures a == b
    decreases |a|
  {
    assert |a| == |multiset(a)| == |multiset(b)| == |b|;
    if |a| > 0 {
      assert a[0] in multiset(b) && b[0] in multiset(a);
      SortedHeadIsMin(a, b[0]);
      SortedHeadIsMin(b, a[0]);
      Cards.TailMultiset(a, b);
      SortedUnique(a[1..], b[1..]);
      assert a == [a[0]] + a[1..] && b == [b[0]] + b[1..];
    }
  }

  function Reverse(s: seq<int>): (r: seq<int>)
    ensures |r| == |s| && forall i :: 0 <= i < |s| ==> r[i] == s[|s| - 1 - i]
    ensures multiset(r) == multiset(s)
  {
    if |s| == 0 then []
    else
      assert s == [s[0]] + s[1..];
      Reverse(s[1..]) + [s[0]]
  }

  /** sorted(ranks, reverse=True) */
  function SortDesc(s: seq<int>): (r: seq<int>)
    ensures SortedDesc(r) && multiset(r) == multiset(s)
  {
    SortIsSorted(s);
    Reverse(Sort(s))
  }

  // ---------------------------------------------------------------------
  // Straight

  /** Five entries from position i on rise by exactly one each step. */
  predicate RunAt(s: seq<int>, i: nat)
    requires i + 4 < |s|
  {
    forall k :: i <= k < i + 5 ==> s[k] == s[i] + (k - i)
  }

  /** is_straight: some window of five in the ascending rank list rises by
      one each step. The Ace is only ever 14. */
  predicate IsStraight(ranks: seq<int>) {
    var s := Sort(ranks);
    exists i: nat :: i + 4 < |s| && RunAt(s, i)
  }

  /** Ranks v..v+4 all occur. */
  predicate HasRunFrom(ranks: seq<int>, v: int) {
    forall r :: v <= r < v + 5 ==> r in ranks
  }

  /** A detected straight is five consecutive ranks that are really there. */
  lemma StraightHasRun(ranks: seq<int>)
    requires IsStraight(ranks)
    ensures exists v :: HasRunFrom(ranks, v)
  {
    var s := Sort(ranks);
    SortIsSorted(ranks);
    var i: nat :| i + 4 < |s| && RunAt(s, i);
    forall r | s[i] <= r < s[i] + 5
      ensures r in ranks
    {
      assert s[i + (r - s[i])] == r;
      assert r in multiset(s);
    }
    assert HasRunFrom(ranks, s[i]);
  }

  /** Two equal entries make a count of at least two. */
  lemma CountsBothEntries(s: seq<int>, a: nat, b: nat)
    requires a < b < |s| && s[a] == s[b]
    ensures Count(s, s[a]) >= 2
  {
    var x := s[a];
    assert s == s[..b] + s[b..];
    assert s[..b][a] == x && s[b..][0] == x;
    CountIsMultiplicity(s, x);
    CountIsMultiplicity(s[..b], x);
    CountIsMultiplicity(s[b..], x);
  }

  /** x sits at position k and nowhere else: it occurs once. */
  lemma {:induction false} SoleOccurrence(s: seq<int>, x: int, k: nat)
    requires k < |s| && s[k] == x
    requires forall j :: 0 <= j < |s| && s[j] == x ==> j == k
    ensures Count(s, x) == 1
  {
    CountIsMultiplicity(s[1..], x);
    if k == 0 {
      assert x !in s[1..];
    } else {
      SoleOccurrence(s[1..], x, k - 1);
    }
  }

  /** Sorting keeps how often each rank occurs, and which ranks occur. */
  lemma SortKeepsCounts(ranks: seq<int>, x: int)
    ensures Count(Sort(ranks), x) == Count(ranks, x)
    ensures x in Sort(ranks) <==> x in ranks
  {
    SortIsSorted(ranks);
    CountIsMultiplicity(Sort(ranks), x);
    CountIsMultiplicity(ranks, x);
    assert x in Sort(ranks) <==> x in multiset(Sort(ranks));
  }

  /** In an ascending list that strictly rises at every step and holds
      v..v+4, the five ranks sit side by side from v's position on. */
  lemma {:induction false} RunFromPosition(s: seq<int>, v: int, i: nat, k: nat)
    requires SortedAsc(s) && i < |s| && s[i] == v && k <= 4
    requires forall a :: 0 <= a && a + 1 < |s| ==> s[a] < s[a + 1]
    requires HasRunFrom(s, v)
    ensures i + k < |s| && forall j :: i <= j <= i + k ==> s[j] == v + (j - i)
  {
    if k > 0 {
      RunFromPosition(s, v, i, k - 1);
      assert v + k in s;
      var p :| 0 <= p < |s| && s[p] == v + k;
      assert s[i + k - 1] < s[i + k] <= s[p];
    }
  }

  /** With no rank repeated, five consecutive ranks are always found: the
      converse of StraightHasRun when the ranks are distinct. */
  lemma DistinctRunIsStraight(ranks: seq<int>, v: int)
    requires forall i, j :: 0 <= i < j < |ranks| ==> ranks[i] != ranks[j]
    requires HasRunFrom(ranks, v)
    ensures IsStraight(ranks)
  {
    var s := Sort(ranks);
    SortIsSorted(ranks);
    forall a | 0 <= a && a + 1 < |s|
      ensures s[a] < s[a + 1]
    {
      if s[a] == s[a + 1] {
        CountsBothEntries(s, a, a + 1);
        SortKeepsCounts(ranks, s[a]);
        var p :| 0 <= p < |ranks| && ranks[p] == s[a];
        SoleOccurrence(ranks, s[a], p);
      }
    }
    forall r | v <= r < v + 5
      ensures r in s
    {
      SortKeepsCounts(ranks, r);
    }
    assert v in s;
    var i :| 0 <= i < |s| && s[i] == v;
    RunFromPosition(s, v, i, 4);
    assert RunAt(s, i);
  }

  /** A straight needs five ranks in a row, so ranks none of which is
      followed by the next four are no straight. */
  lemma NoRunIsNoStraight(ranks: seq<int>)
    requires forall v :: v in ranks ==> !(v + 1 in ranks && v + 2 in ranks && v + 3 in ranks && v + 4 in ranks)
    ensures !IsStraight(ranks)
  {
    if IsStraight(ranks) {
      StraightHasRun(ranks);
      var v :| HasRunFrom(ranks, v);
      RunMembers(ranks, v);
    }
  }

  /** The five ranks of a run, one by one. */
  lemma RunMembers(ranks: seq<int>, v: int)
    requires HasRunFrom(ranks, v)
    ensures v in ranks && v + 1 in ranks && v + 2 in ranks && v + 3 in ranks && v + 4 in ranks
  {
  }

  /** There is no Ace-low straight: A-2-3-4-5 is not a straight. */
  lemma WheelIsNotStraight()
    ensures !IsStraight([14, 2, 3, 4, 5])
  {
    NoRunIsNoStraight([14, 2, 3, 4, 5]);
  }

  /** In an ascending list a smaller entry comes first. */
  lemma SortedOrder(s: seq<int>, a: nat, b: nat)
    requires SortedAsc(s) && a < |s| && b < |s| && s[a] < s[b]
    ensures a < b
  {
  }

  /** When the only run of five has one of its three middle ranks twice,
      no window of the ascending list is consecutive: the extra copy sits
      inside the window. */
  lemma PairInsideRunIsNoStraight(ranks: seq<int>, v: int, x: int)
    requires forall w :: HasRunFrom(ranks, w) ==> w == v
    requires v < x < v + 4 && Count(ranks, x) >= 2
    ensures !IsStraight(ranks)
  {
    if IsStraight(ranks) {
      var s := Sort(ranks);
      SortIsSorted(ranks);
      var i: nat :| i + 4 < |s| && RunAt(s, i);
      forall r | s[i] <= r < s[i] + 5
        ensures r in ranks
      {
        assert s[i + (r - s[i])] == r;
        SortKeepsCounts(ranks, r);
      }
      assert HasRunFrom(ranks, s[i]);
      var m := x - v;
      forall j | 0 <= j < |s| && s[j] == x
        ensures j == i + m
      {
        SortedOrder(s, i, j);
        SortedOrder(s, j, i + 4);
      }
      SoleOccurrence(s, x, i + m);
      SortKeepsCounts(ranks, x);
    }
  }

  /** A paired rank inside the run hides the straight: 5,6,7,7,8,9 holds
      5..9 but no window of the sorted list is consecutive. */
  lemma PairInsideRunHidesStraight()
    ensures HasRunFrom([5, 6, 7, 7, 8, 9, 2], 5)
    ensures !IsStraight([5, 6, 7, 7, 8, 9, 2])
  {
    var ranks := [5, 6, 7, 7, 8, 9, 2];
    PairedRunStartsAtFive();
    assert Count(ranks, 7) == 2 by {
      CountOfSeven(ranks, 7);
    }
    PairInsideRunIsNoStraight(ranks, 5, 7);
  }

  /** The only run of five in 5,6,7,7,8,9,2 starts at 5. */
  lemma PairedRunStartsAtFive()
    ensures HasRunFrom([5, 6, 7, 7, 8, 9, 2], 5)
    ensures forall w :: HasRunFrom([5, 6, 7, 7, 8, 9, 2], w) ==> w == 5
  {
    var ranks := [5, 6, 7, 7, 8, 9, 2];
    forall w | HasRunFrom(ranks, w)
      ensures w == 5
    {
      RunMembers(ranks, w);
    }
  }

  /** The first straight window of the ascending ranks at or after i
      (get_straight), or None when there is none. */
  function FirstRun(s: seq<int>, i: nat): (r: Option<nat>)
    ensures r.Some? ==> i <= r.value && r.value + 4 < |s| && RunAt(s, r.value)
    ensures r.Some? ==> forall k: nat :: i <= k < r.value ==> !RunAt(s, k)
    ensures r.None? ==> forall k: nat :: i <= k && k + 4 < |s| ==> !RunAt(s, k)
    decreases |s| - i
  {
    if i + 4 >= |s| then None
    else if RunAt(s, i) then Some(i)
    else FirstRun(s, i + 1)
  }

  function StraightRanks(ranks: seq<int>): (r: Option<seq<int>>)
    ensures r.Some? <==> IsStraight(ranks)
    ensures r.Some? ==> |r.value| == 5 && forall j :: 0 <= j < 5 ==> r.value[j] == r.value[0] + j && r.value[j] in ranks
    ensures r.Some? ==> var s := Sort(ranks);
                        forall k: nat :: k + 4 < |s| && RunAt(s, k) ==> r.value[0] <= s[k]
  {
    var s := Sort(ranks);
    match FirstRun(s, 0)
    case None => None
    case Some(i) =>
      StraightWindow(ranks, i);
      SortIsSorted(ranks);
      Some(s[i..i + 5])
  }

  /** A consecutive window of the ascending ranks: five ranks in a row,
      each one of the ranks given. */
  lemma StraightWindow(ranks: seq<int>, i: nat)
    requires i + 4 < |Sort(ranks)| && RunAt(Sort(ranks), i)
    ensures var w := Sort(ranks)[i..i + 5];
            |w| == 5 && forall j :: 0 <= j < 5 ==> w[j] == w[0] + j && w[j] in ranks
  {
    var s := Sort(ranks);
    var w := s[i..i + 5];
    SortIsSorted(ranks);
    forall j | 0 <= j < 5
      ensures w[j] == w[0] + j && w[j] in ranks
    {
      assert w[j] == s[i + j];
      assert s[i + j] in multiset(ranks);
    }
  }

  // ---------------------------------------------------------------------
  // Same-rank predicates

  /** has_same_rank: some rank occurs EXACTLY n times. */
  predicate HasSameRank(ranks: seq<int>, n: nat) {
    exists i :: 0 <= i < |ranks| && Count(ranks, ranks[i]) == n
  }

  /** Four of a kind alone satisfies neither three of a kind nor a pair. */
  lemma QuadsAreNotTripsOrPair()
    ensures HasSameRank([9, 9, 9, 9, 2, 3, 5], 4)
    ensures !HasSameRank([9, 9, 9, 9, 2, 3, 5], 3)
    ensures !HasSameRank([9, 9, 9, 9, 2, 3, 5], 2)
  {
    QuadsExampleCounts();
    assert [9, 9, 9, 9, 2, 3, 5][0] == 9;
  }

  /** Four nines and three single ranks. */
  lemma QuadsExampleCounts()
    ensures forall i :: 0 <= i < 7 ==>
              Count([9, 9, 9, 9, 2, 3, 5], [9, 9, 9, 9, 2, 3, 5][i])
                == if [9, 9, 9, 9, 2, 3, 5][i] == 9 then 4 else 1
  {
    var ranks := [9, 9, 9, 9, 2, 3, 5];
    forall i | 0 <= i < |ranks|
      ensures Count(ranks, ranks[i]) == if ranks[i] == 9 then 4 else 1
    {
      CountOfSeven(ranks, ranks[i]);
    }
  }

  /** Two triples are not a full house: no rank occurs exactly twice. */
  lemma TwoTriplesAreNotFullHouse()
    ensures HasSameRank([9, 9, 9, 5, 5, 5, 2], 3)
    ensures !HasSameRank([9, 9, 9, 5, 5, 5, 2], 2)
  {
    TriplesExampleCounts();
    assert [9, 9, 9, 5, 5, 5, 2][0] == 9;
  }

  /** Three nines, three fives and a single two. */
  lemma TriplesExampleCounts()
    ensures forall i :: 0 <= i < 7 ==>
              Count([9, 9, 9, 5, 5, 5, 2], [9, 9, 9, 5, 5, 5, 2][i])
                == if [9, 9, 9, 5, 5, 5, 2][i] == 2 then 1 else 3
  {
    var ranks := [9, 9, 9, 5, 5, 5, 2];
    forall i | 0 <= i < |ranks|
      ensures Count(ranks, ranks[i]) == if ranks[i] == 2 then 1 else 3
    {
      CountOfSeven(ranks, ranks[i]);
    }
  }

  // ---------------------------------------------------------------------
  // Two pair as written: `cards.count(rank)` counts an integer rank among
  // the card STRINGS. Python equality between str and int is always false.

  datatype PyValue = PyStr(s: string) | PyInt(i: int)

  function Boxed(cards: seq<string>): (r: seq<PyValue>)
    ensures |r| == |cards| && forall i :: 0 <= i < |r| ==> r[i] == PyStr(cards[i])
  {
    if |cards| == 0 then [] else [PyStr(cards[0])] + Boxed(cards[1..])
  }

  predicate IsTwoPairAsWritten(cards: seq<string>, ranks: seq<int>) {
    |set r | r in ranks && Count(Boxed(cards), PyInt(r)) == 2| >= 2
  }

  lemma {:induction false} NoIntAmongStrings(xs: seq<PyValue>, r: int)
    requires forall i :: 0 <= i < |xs| ==> xs[i].PyStr?
    ensures Count(xs, PyInt(r)) == 0
  {
    if |xs| > 0 {
      NoIntAmongStrings(xs[1..], r);
    }
  }

  /** is_two_pair never holds, whatever the cards. */
  lemma TwoPairNeverFires(cards: seq<string>, ranks: seq<int>)
    ensures !IsTwoPairAsWritten(cards, ranks)
  {
    forall r | r in ranks
      ensures Count(Boxed(cards), PyInt(r)) == 0
    {
      NoIntAmongStrings(Boxed(cards), r);
    }
    assert (set r | r in ranks && Count(Boxed(cards), PyInt(r)) == 2) == {};
  }

  // ---------------------------------------------------------------------
  // Categories over the cards

  predicate IsStraightFlush(cards: seq<string>)
    requires AllWellFormed(cards)
  {
    IsFlush(SuitLetters(cards)) && IsStraight(RankValues(cards))
  }

  predicate IsRoyalFlush(cards: seq<string>)
    requires AllWellFormed(cards)
  {
    IsStraightFlush(cards) && (set r | r in RankValues(cards)) == {10, 11, 12, 13, 14}
  }

  /** Whether a category's test holds for the cards. */
  predicate Matches(c: Category, cards: seq<string>)
    requires AllWellFormed(cards)
  {
    var ranks := RankValues(cards);
    match c
    case RoyalFlush => IsRoyalFlush(cards)
    case StraightFlush => IsStraightFlush(cards)
    case FourOfAKind => HasSameRank(ranks, 4)
    case FullHouse => HasSameRank(ranks, 3) && HasSameRank(ranks, 2)
    case Flush => IsFlush(SuitLetters(cards))
    case Straight => IsStraight(ranks)
    case ThreeOfAKind => HasSameRank(ranks, 3)
    case TwoPair => IsTwoPairAsWritten(cards, ranks)
    case OnePair => HasSameRank(ranks, 2)
    case HighCard => true
  }

  // ---------------------------------------------------------------------
  // Result cards

  function Take(s: seq<int>, n: nat): seq<int> {
    if n <= |s| then s[..n] else s
  }

  function TakeLast(s: seq<int>, n: nat): seq<int> {
    if n <= |s| then s[|s| - n..] else s
  }

  /** get_hand: the first `primary` of the descending ranks, followed by
      the last `secondary` when `secondary` is given (0 stands for None). */
  function GetHand(ranks: seq<int>, primary: nat, secondary: nat): seq<int> {
    var d := SortDesc(ranks);
    if secondary > 0 then Take(d, primary) + TakeLast(d, secondary) else Take(d, primary)
  }

  /** get_hand keeps the highest ranks: its first min(primary, |ranks|)
      entries descend, are drawn from the ranks, and are no smaller than
      any rank left out. */
  lemma GetHandTakesTopRanks(ranks: seq<int>, primary: nat, secondary: nat)
    ensures var k := if primary <= |ranks| then primary else |ranks|;
            var top := GetHand(ranks, primary, secondary)[..k];
            && |top| == k
            && SortedDesc(top)
            && multiset(top) <= multiset(ranks)
            && forall i, y :: 0 <= i < k && y in multiset(ranks) - multiset(top) ==> top[i] >= y
  {
    var k := if primary <= |ranks| then primary else |ranks|;
    GetHandStartsDescending(ranks, primary, secondary, k);
    PrefixOfDescending(SortDesc(ranks), k);
  }

  /** get_hand starts with the first `primary` descending ranks. */
  lemma GetHandStartsDescending(ranks: seq<int>, primary: nat, secondary: nat, k: nat)
    requires k == if primary <= |ranks| then primary else |ranks|
    ensures |SortDesc(ranks)| == |ranks|
    ensures |GetHand(ranks, primary, secondary)| >= k
    ensures GetHand(ranks, primary, secondary)[..k] == SortDesc(ranks)[..k]
  {
    var d := SortDesc(ranks);
    assert |d| == |ranks| by {
      assert |multiset(d)| == |multiset(ranks)|;
    }
    var t := Take(d, primary);
    assert |t| == k && t == d[..k];
    var h := GetHand(ranks, primary, secondary);
    assert h == t || h == t + TakeLast(d, secondary);
    assert h[..k] == t;
  }

  /** The first k of a descending arrangement are the k largest. */
  lemma PrefixOfDescending(d: seq<int>, k: nat)
    requires SortedDesc(d) && k <= |d|
    ensures SortedDesc(d[..k])
    ensures multiset(d[..k]) <= multiset(d)
    ensures forall i, y :: 0 <= i < k && y in multiset(d) - multiset(d[..k]) ==> d[i] >= y
  {
    assert d == d[..k] + d[k..];
    assert multiset(d) == multiset(d[..k]) + multiset(d[k..]);
    forall i, y | 0 <= i < k && y in multiset(d) - multiset(d[..k])
      ensures d[i] >= y
    {
      assert y in multiset(d[k..]);
      var j :| 0 <= j < |d| - k && d[k..][j] == y;
      assert d[k + j] == y;
    }
  }

  /** A suit of highest count. Python's max(set(suits), key=...) breaks a
      tie in the set's iteration order, which Python leaves open; this
      model chooses the first such suit in card order instead. */
  function FirstMax(all: seq<char>, xs: seq<char>): (r: char)
    requires |xs| > 0
    ensures r in xs && Count(all, r) == MaxCount(all, xs)
  {
    if |xs| == 1 || Count(all, xs[0]) >= MaxCount(all, xs[1..]) then xs[0]
    else FirstMax(all, xs[1..])
  }

  function CardsOfSuit(cards: seq<string>, s: char): (r: seq<string>)
    requires AllWellFormed(cards)
    ensures AllWellFormed(r) && |r| == Count(SuitLetters(cards), s)
    ensures forall i :: 0 <= i < |r| ==> r[i] in cards && SuitOf(r[i]) == s
  {
    if |cards| == 0 then []
    else
      assert SuitLetters(cards) == [SuitOf(cards[0])] + SuitLetters(cards[1..]);
      if SuitOf(cards[0]) == s then [cards[0]] + CardsOfSuit(cards[1..], s)
    else CardsOfSuit(cards[1..], s)
  }

  /** get_flush_cards: the cards of the most frequent suit. */
  function FlushCards(cards: seq<string>): (r: seq<string>)
    requires AllWellFormed(cards) && IsFlush(SuitLetters(cards))
    ensures AllWellFormed(r) && |r| >= 5
    ensures forall i :: 0 <= i < |r| ==> r[i] in cards && SuitOf(r[i]) == SuitOf(r[0])
  {
    var suits := SuitLetters(cards);
    CardsOfSuit(cards, FirstMax(suits, suits))
  }

  // ---------------------------------------------------------------------
  // evaluate_hand

  /** The strongest-first cascade of tests over well-formed cards: the
      first category whose test holds. */
  function CategoryOf(cards: seq<string>): Category
    requires AllWellFormed(cards)
  {
    var ranks := RankValues(cards);
    if IsRoyalFlush(cards) then RoyalFlush
    else if IsStraightFlush(cards) then StraightFlush
    else if HasSameRank(ranks, 4) then FourOfAKind
    else if HasSameRank(ranks, 3) && HasSameRank(ranks, 2) then FullHouse
    else if IsFlush(SuitLetters(cards)) then Flush
    else if IsStraight(ranks) then Straight
    else if HasSameRank(ranks, 3) then ThreeOfAKind
    else if IsTwoPairAsWritten(cards, ranks) then TwoPair
    else if HasSameRank(ranks, 2) then OnePair
    else HighCard
  }

  /** The cards reported with each category; "Two Pair" would call the
      undefined get_two_pair. */
  function Classify(cards: seq<string>): Result<BestHand, EvalError>
    requires AllWellFormed(cards)
  {
    var ranks := RankValues(cards);
    match CategoryOf(cards)
    case RoyalFlush => Ok(BestHand(RoyalFlush, CardList(cards)))
    case StraightFlush => Ok(BestHand(StraightFlush, CardList(cards)))
    case FourOfAKind => Ok(BestHand(FourOfAKind, RankList(GetHand(ranks, 4, 0))))
    case FullHouse => Ok(BestHand(FullHouse, RankList(GetHand(ranks, 3, 2))))
    case Flush => Ok(BestHand(Flush, CardList(FlushCards(cards))))
    case Straight => Ok(BestHand(Straight, RankList(StraightRanks(ranks).value)))
    case ThreeOfAKind => Ok(BestHand(ThreeOfAKind, RankList(GetHand(ranks, 3, 0))))
    case TwoPair => Err(UndefinedGetTwoPair)
    case OnePair => Ok(BestHand(OnePair, RankList(GetHand(ranks, 2, 0))))
    case HighCard => Ok(BestHand(HighCard, RankList([])))
  }

  /** evaluate_hand on the combined list of all cards. */
  function EvaluateCards(cards: seq<string>): Result<BestHand, EvalError> {
    if |cards| == 0 then Err(NoCards)
    else if !AllWellFormed(cards) then Err(MalformedCard)
    else Classify(cards)
  }

  function EvaluateHand(playerHand: seq<string>, communityCards: seq<string>): Result<BestHand, EvalError> {
    EvaluateCards(playerHand + communityCards)
  }

  lemma FlushIgnoresOrder(s1: seq<char>, s2: seq<char>)
    requires multiset(s1) == multiset(s2)
    ensures IsFlush(s1) == IsFlush(s2)
  {
    IsFlushIff(s1);
    IsFlushIff(s2);
    if IsFlush(s1) {
      var c :| Count(s1, c) >= 5;
      CountIsMultiplicity(s1, c);
      CountIsMultiplicity(s2, c);
    }
    if IsFlush(s2) {
      var c :| Count(s2, c) >= 5;
      CountIsMultiplicity(s1, c);
      CountIsMultiplicity(s2, c);
    }
  }

  lemma StraightIgnoresOrder(r1: seq<int>, r2: seq<int>)
    requires multiset(r1) == multiset(r2)
    ensures Sort(r1) == Sort(r2)
    ensures IsStraight(r1) == IsStraight(r2)
  {
    SortIsSorted(r1);
    SortIsSorted(r2);
    SortedUnique(Sort(r1), Sort(r2));
  }

  lemma SameRankIgnoresOrder(r1: seq<int>, r2: seq<int>, n: nat)
    requires multiset(r1) == multiset(r2)
    ensures HasSameRank(r1, n) == HasSameRank(r2, n)
  {
    if HasSameRank(r1, n) {
      var i :| 0 <= i < |r1| && Count(r1, r1[i]) == n;
      assert r1[i] in multiset(r2);
      var j :| 0 <= j < |r2| && r2[j] == r1[i];
      CountIsMultiplicity(r1, r1[i]);
      CountIsMultiplicity(r2, r1[i]);
    }
    if HasSameRank(r2, n) {
      var j :| 0 <= j < |r2| && Count(r2, r2[j]) == n;
      assert r2[j] in multiset(r1);
      var i :| 0 <= i < |r1| && r1[i] == r2[j];
      CountIsMultiplicity(r1, r2[j]);
      CountIsMultiplicity(r2, r2[j]);
    }
  }

  /** The category depends only on which cards are held, not on their
      order, nor on whether a card is in the hand or on the board. */
  lemma CategoryIgnoresOrder(a: seq<string>, b: seq<string>)
    requires AllWellFormed(a) && multiset(a) == multiset(b)
    ensures AllWellFormed(b) && CategoryOf(a) == CategoryOf(b)
  {
    ReadingIsPermutationInvariant(a, b);
    CategoryIsStrongestMatch(a);
    CategoryIsStrongestMatch(b);
    var ca, cb := CategoryOf(a), CategoryOf(b);
    TwoPairNeverFires(a, RankValues(a));
    TwoPairNeverFires(b, RankValues(b));
    MatchesIgnoresOrder(a, b, ca);
    MatchesIgnoresOrder(a, b, cb);
    assert Value(ca) == Value(cb);
  }

  /** Every test but the two-pair one looks only at which ranks and suits
      occur how often, so reordering the cards changes none of them. */
  lemma MatchesIgnoresOrder(a: seq<string>, b: seq<string>, c: Category)
    requires AllWellFormed(a) && multiset(a) == multiset(b) && c != TwoPair
    ensures AllWellFormed(b) && Matches(c, a) == Matches(c, b)
  {
    ReadingIsPermutationInvariant(a, b);
    var ra, rb := RankValues(a), RankValues(b);
    match c {
      case RoyalFlush =>
        FlushIgnoresOrder(SuitLetters(a), SuitLetters(b));
        StraightIgnoresOrder(ra, rb);
        assert (set r | r in ra) == (set r | r in rb) by {
          forall r
            ensures r in ra <==> r in rb
          {
            assert r in ra <==> r in multiset(ra);
          }
        }
      case StraightFlush =>
        FlushIgnoresOrder(SuitLetters(a), SuitLetters(b));
        StraightIgnoresOrder(ra, rb);
      case FourOfAKind => SameRankIgnoresOrder(ra, rb, 4);
      case FullHouse =>
        SameRankIgnoresOrder(ra, rb, 3);
        SameRankIgnoresOrder(ra, rb, 2);
      case Flush => FlushIgnoresOrder(SuitLetters(a), SuitLetters(b));
      case Straight => StraightIgnoresOrder(ra, rb);
      case ThreeOfAKind => SameRankIgnoresOrder(ra, rb, 3);
      case OnePair => SameRankIgnoresOrder(ra, rb, 2);
      case HighCard =>
    }
  }

  /** Swapping the hole cards and the board does not change the category. */
  lemma EvaluateHandIgnoresSides(hole: seq<string>, community: seq<string>)
    ensures EvaluateHand(hole, community).Ok? == EvaluateHand(community, hole).Ok?
    ensures EvaluateHand(hole, community).Ok? ==>
              EvaluateHand(hole, community).value.category == EvaluateHand(community, hole).value.category
  {
    var a, b := hole + community, community + hole;
    assert multiset(a) == multiset(b);
    assert |a| == |b|;
    EvaluateIsStrongestMatch(a);
    EvaluateIsStrongestMatch(b);
    if AllWellFormed(a) {
      CategoryIgnoresOrder(a, b);
    } else if AllWellFormed(b) {
      CategoryIgnoresOrder(b, a);
    }
  }

  /** The cascade reports the strongest category whose test holds. */
  lemma CategoryIsStrongestMatch(cards: seq<string>)
    requires AllWellFormed(cards)
    ensures Matches(CategoryOf(cards), cards)
    ensures forall c :: Value(c) > Value(CategoryOf(cards)) ==> !Matches(c, cards)
  {
  }

  /** evaluate_hand fails exactly on an empty or malformed card list; it
      never reaches the missing get_two_pair; its category is the strongest
      one whose test holds. */
  lemma EvaluateIsStrongestMatch(cards: seq<string>)
    ensures EvaluateCards(cards).Err? <==> |cards| == 0 || !AllWellFormed(cards)
    ensures EvaluateCards(cards).Ok? ==>
              var c := EvaluateCards(cards).value.category;
              && c == CategoryOf(cards)
              && c != TwoPair
              && Matches(c, cards)
              && forall c' :: Value(c') > Value(c) ==> !Matches(c', cards)
  {
    if |cards| > 0 && AllWellFormed(cards) {
      TwoPairNeverFires(cards, RankValues(cards));
      CategoryIsStrongestMatch(cards);
    }
  }

  /** The cards each successful evaluation reports, apart from a flush's:
      all the cards for a royal or straight flush; the top four ranks for
      four of a kind; the top three and the lowest two for a full house;
      the five consecutive ranks of the first run for a straight; the top
      three or two ranks for three of a kind or a pair; and nothing for a
      high card. */
  lemma EvaluateReportsCards(cards: seq<string>)
    ensures EvaluateCards(cards).Ok? ==>
              && |cards| > 0 && AllWellFormed(cards)
              && var b := EvaluateCards(cards).value;
              var ranks := RankValues(cards);
              && (b.category == RoyalFlush ==> b.shown == CardList(cards))
              && (b.category == StraightFlush ==> b.shown == CardList(cards))
              && (b.category == FourOfAKind ==> b.shown == RankList(GetHand(ranks, 4, 0)))
              && (b.category == FullHouse ==> b.shown == RankList(GetHand(ranks, 3, 2)))
              && (b.category == Straight ==>
                    && StraightRanks(ranks).Some?
                    && b.shown == RankList(StraightRanks(ranks).value)
                    && |b.shown.ranks| == 5
                    && forall j :: 0 <= j < 5 ==> b.shown.ranks[j] == b.shown.ranks[0] + j && b.shown.ranks[j] in ranks)
              && (b.category == ThreeOfAKind ==> b.shown == RankList(GetHand(ranks, 3, 0)))
              && (b.category == OnePair ==> b.shown == RankList(GetHand(ranks, 2, 0)))
              && (b.category == HighCard ==> b.shown == RankList([]))
  {
    if |cards| > 0 && AllWellFormed(cards) {
      var ranks := RankValues(cards);
      var c := CategoryOf(cards);
      assert EvaluateCards(cards) == Classify(cards);
      if c == Straight {
        assert IsStraight(ranks);
        var shown := StraightRanks(ranks);
        assert Classify(cards) == Ok(BestHand(Straight, RankList(shown.value)));
      } else if c == TwoPair {
        assert Classify(cards).Err?;
      } else {
        assert Classify(cards).Ok? && Classify(cards).value.category == c;
      }
    }
  }

  /** A flush reports the cards of its suit: at least five, all of one
      suit, all among the cards evaluated. */
  lemma EvaluateReportsFlushCards(cards: seq<string>)
    ensures EvaluateCards(cards).Ok? && EvaluateCards(cards).value.category == Flush ==>
              var shown := EvaluateCards(cards).value.shown;
              && AllWellFormed(cards) && IsFlush(SuitLetters(cards))
              && shown == CardList(FlushCards(cards))
              && |shown.cards| >= 5
              && forall i :: 0 <= i < |shown.cards| ==>
                   shown.cards[i] in cards && SuitOf(shown.cards[i]) == SuitOf(shown.cards[0])
  {
    if |cards| > 0 && AllWellFormed(cards) && CategoryOf(cards) == Flush {
      assert EvaluateCards(cards) == Ok(BestHand(Flush, CardList(FlushCards(cards))));
    }
  }

  /** The seven cards 4-6-8-10-Q of hearts, 5 of diamonds, 7 of clubs. */
  function MixedExample(): seq<Cards.Card> {
    [Cards.Card(4, Cards.Hearts), Cards.Card(6, Cards.Hearts), Cards.Card(8, Cards.Hearts),
     Cards.Card(10, Cards.Hearts), Cards.Card(12, Cards.Hearts), Cards.Card(5, Cards.Diamonds),
     Cards.Card(7, Cards.Clubs)]
  }

  lemma MixedExampleText()
    ensures CardTexts(MixedExample()) == ["4H", "6H", "8H", "10H", "QH", "5D", "7C"]
  {
    var cards := CardTexts(MixedExample());
    assert cards[0] == "4H" && cards[1] == "6H" && cards[2] == "8H";
    assert cards[3] == "10H" && cards[4] == "QH" && cards[5] == "5D" && cards[6] == "7C";
  }

  lemma ReadMixedExample()
    ensures AllWellFormed(["4H", "6H", "8H", "10H", "QH", "5D", "7C"])
    ensures RankValues(["4H", "6H", "8H", "10H", "QH", "5D", "7C"]) == [4, 6, 8, 10, 12, 5, 7]
    ensures SuitLetters(["4H", "6H", "8H", "10H", "QH", "5D", "7C"]) == ['H', 'H', 'H', 'H', 'H', 'D', 'C']
  {
    MixedExampleText();
    ReadCardTexts(MixedExample());
  }

  /** "Straight flush" means a flush and a straight among all the cards,
      not necessarily the same five: 4-6-8-10-Q of hearts with a 5 of
      diamonds and a 7 of clubs is reported as a straight flush. */
  lemma StraightFlushNeedNotBeSameFive()
    ensures AllWellFormed(["4H", "6H", "8H", "10H", "QH", "5D", "7C"])
    ensures IsStraightFlush(["4H", "6H", "8H", "10H", "QH", "5D", "7C"])
  {
    ReadMixedExample();
    FiveHeartsIsFlush();
    MixedRanksAreStraight();
  }

  lemma FiveHeartsIsFlush()
    ensures IsFlush(['H', 'H', 'H', 'H', 'H', 'D', 'C'])
  {
    var suits := ['H', 'H', 'H', 'H', 'H', 'D', 'C'];
    IsFlushIff(suits);
    CountIsMultiplicity(suits, 'H');
    assert multiset(suits)['H'] == 5;
  }

  lemma MixedRanksAreStraight()
    ensures IsStraight([4, 6, 8, 10, 12, 5, 7])
  {
    var ranks := [4, 6, 8, 10, 12, 5, 7];
    assert ranks[0] == 4 && ranks[6] == 7 && ranks[5] == 5 && ranks[1] == 6 && ranks[2] == 8;
    DistinctRunIsStraight(ranks, 4);
  }

  /** The worked example: 9H KD in the hole, 3H 4S 5D 8H KH on the board. */
  function PairExample(): seq<Cards.Card> {
    [Cards.Card(9, Cards.Hearts), Cards.Card(13, Cards.Diamonds), Cards.Card(3, Cards.Hearts),
     Cards.Card(4, Cards.Spades), Cards.Card(5, Cards.Diamonds), Cards.Card(8, Cards.Hearts),
     Cards.Card(13, Cards.Hearts)]
  }

  lemma PairExampleText()
    ensures CardTexts(PairExample()) == ["9H", "KD", "3H", "4S", "5D", "8H", "KH"]
  {
    var cards := CardTexts(PairExample());
    assert cards[0] == "9H" && cards[1] == "KD" && cards[2] == "3H" && cards[3] == "4S";
    assert cards[4] == "5D" && cards[5] == "8H" && cards[6] == "KH";
  }

  lemma ReadPairExample()
    ensures AllWellFormed(["9H", "KD", "3H", "4S", "5D", "8H", "KH"])
    ensures RankValues(["9H", "KD", "3H", "4S", "5D", "8H", "KH"]) == [9, 13, 3, 4, 5, 8, 13]
    ensures SuitLetters(["9H", "KD", "3H", "4S", "5D", "8H", "KH"]) == ['H', 'D', 'H', 'S', 'D', 'H', 'H']
  {
    PairExampleText();
    ReadCardTexts(PairExample());
  }

  /** Four hearts are not a flush. */
  lemma FourHeartsIsNoFlush()
    ensures !IsFlush(['H', 'D', 'H', 'S', 'D', 'H', 'H'])
  {
    var suits := ['H', 'D', 'H', 'S', 'D', 'H', 'H'];
    IsFlushIff(suits);
    forall c
      ensures Count(suits, c) < 5
    {
      CountAtMostFourHearts(c);
    }
  }

  lemma CountAtMostFourHearts(c: char)
    ensures Count(['H', 'D', 'H', 'S', 'D', 'H', 'H'], c) <= 4
  {
    var suits := ['H', 'D', 'H', 'S', 'D', 'H', 'H'];
    assert suits[1..] == ['D', 'H', 'S', 'D', 'H', 'H'];
    assert Count(['H', 'S', 'D', 'H', 'H'], c) <= 4;
  }

  /** 3-4-5 and 8-9 with a pair of kings hold no run of five. */
  lemma PairExampleIsNoStraight()
    ensures !IsStraight([9, 13, 3, 4, 5, 8, 13])
  {
    NoRunIsNoStraight([9, 13, 3, 4, 5, 8, 13]);
  }

  /** Only the kings repeat, and exactly twice. */
  lemma PairExampleCounts()
    ensures !HasSameRank([9, 13, 3, 4, 5, 8, 13], 4)
    ensures !HasSameRank([9, 13, 3, 4, 5, 8, 13], 3)
    ensures HasSameRank([9, 13, 3, 4, 5, 8, 13], 2)
  {
    var ranks := [9, 13, 3, 4, 5, 8, 13];
    PairExampleAtMostTwice();
    assert Count(ranks, ranks[1]) == 2 by {
      CountOfSeven(ranks, 13);
    }
  }

  /** No rank of the example occurs more than twice. */
  lemma PairExampleAtMostTwice()
    ensures forall i :: 0 <= i < 7 ==> Count([9, 13, 3, 4, 5, 8, 13], [9, 13, 3, 4, 5, 8, 13][i]) <= 2
  {
    var ranks := [9, 13, 3, 4, 5, 8, 13];
    forall i | 0 <= i < |ranks|
      ensures Count(ranks, ranks[i]) <= 2
    {
      CountOfSeven(ranks, ranks[i]);
    }
  }

  /** The example's category is one pair. */
  lemma PairExampleCategory()
    ensures AllWellFormed(["9H", "KD", "3H", "4S", "5D", "8H", "KH"])
    ensures CategoryOf(["9H", "KD", "3H", "4S", "5D", "8H", "KH"]) == OnePair
  {
    var cards := ["9H", "KD", "3H", "4S", "5D", "8H", "KH"];
    ReadPairExample();
    FourHeartsIsNoFlush();
    PairExampleIsNoStraight();
    PairExampleCounts();
    TwoPairNeverFires(cards, RankValues(cards));
    assert !IsFlush(SuitLetters(cards));
    assert !IsStraightFlush(cards);
    assert !IsRoyalFlush(cards);
  }

  /** The two highest of the example's ranks are the kings. */
  lemma PairExampleTopTwo()
    ensures GetHand([9, 13, 3, 4, 5, 8, 13], 2, 0) == [13, 13]
  {
    CountOfSeven([9, 13, 3, 4, 5, 8, 13], 13);
    TopTwoOfPairedMax([9, 13, 3, 4, 5, 8, 13], 13);
  }

  /** When the highest rank is held twice, the two highest ranks are that
      rank twice. */
  lemma TopTwoOfPairedMax(ranks: seq<int>, x: int)
    requires |ranks| >= 2 && Count(ranks, x) >= 2
    requires forall i :: 0 <= i < |ranks| ==> ranks[i] <= x
    ensures GetHand(ranks, 2, 0) == [x, x]
  {
    TopTwoAreLastSorted(ranks);
    var s := Sort(ranks);
    SortIsSorted(ranks);
    forall j | 0 <= j < |s|
      ensures s[j] <= x
    {
      SortKeepsCounts(ranks, s[j]);
    }
    SortKeepsCounts(ranks, x);
    LastTwoOfSorted(s, x);
  }

  /** An ascending list bounded by x that holds x at least twice ends
      with x, x. */
  lemma LastTwoOfSorted(s: seq<int>, x: int)
    requires SortedAsc(s) && Count(s, x) >= 2
    requires forall j :: 0 <= j < |s| ==> s[j] <= x
    ensures |s| >= 2 && s[|s| - 1] == x && s[|s| - 2] == x
  {
    var p, q := CountedTwice(s, x);
    var n := |s|;
    assert s[q] <= s[n - 1];
    assert s[p] <= s[n - 2];
  }

  /** The descending arrangement starts with the last two of the
      ascending one. */
  lemma DescendingStartsWithLargest(ranks: seq<int>)
    requires |ranks| >= 2
    ensures |Sort(ranks)| == |ranks| == |SortDesc(ranks)|
    ensures SortDesc(ranks)[0] == Sort(ranks)[|ranks| - 1]
    ensures SortDesc(ranks)[1] == Sort(ranks)[|ranks| - 2]
  {
    SortIsSorted(ranks);
    var s := Sort(ranks);
    assert |s| == |multiset(s)| == |multiset(ranks)| == |ranks|;
    assert SortDesc(ranks) == Reverse(s);
  }

  /** get_hand(ranks, 2) is the last two of the ascending ranks, largest
      first. */
  lemma TopTwoAreLastSorted(ranks: seq<int>)
    requires |ranks| >= 2
    ensures var s := Sort(ranks);
            |s| == |ranks| && GetHand(ranks, 2, 0) == [s[|s| - 1], s[|s| - 2]]
  {
    DescendingStartsWithLargest(ranks);
    var d := SortDesc(ranks);
    assert GetHand(ranks, 2, 0) == d[..2];
    assert d[..2] == [d[0], d[1]];
  }

  /** The example is one pair, reported as the two highest ranks, the
      kings. */
  lemma PairExampleIsOnePairOfKings()
    ensures EvaluateHand(["9H", "KD"], ["3H", "4S", "5D", "8H", "KH"]) == Ok(BestHand(OnePair, RankList([13, 13])))
  {
    PairExampleEvaluates(["9H", "KD"], ["3H", "4S", "5D", "8H", "KH"]);
  }

  /** The pair example, with the hands passed in rather than written out. */
  lemma PairExampleEvaluates(hole: seq<string>, board: seq<string>)
    requires hole == ["9H", "KD"] && board == ["3H", "4S", "5D", "8H", "KH"]
    ensures EvaluateHand(hole, board) == Ok(BestHand(OnePair, RankList([13, 13])))
  {
    assert hole + board == ["9H", "KD", "3H", "4S", "5D", "8H", "KH"];
    PairExampleCategory();
    EvaluateOnePair(hole, board);
    ReadPairExample();
    PairExampleTopTwo();
  }

  /** Cards whose category is one pair are reported as get_hand(ranks, 2). */
  lemma EvaluateOnePair(hole: seq<string>, board: seq<string>)
    requires |hole + board| > 0 && AllWellFormed(hole + board) && CategoryOf(hole + board) == OnePair
    ensures EvaluateHand(hole, board) == Ok(BestHand(OnePair, RankList(GetHand(RankValues(hole + board), 2, 0))))
  {
  }
}
