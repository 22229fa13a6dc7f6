/** Playing cards as the environment, the simulator, the evaluator and the
    state encoder all know them: one value type, with each module writing
    it out in its own textual format. Also holds the shuffle the
    environment uses (Python's `random.shuffle`, with its random draws
    passed in). */
module Cards {

  datatype Suit = Hearts | Diamonds | Clubs | Spades

  /** Ranks 2..10, then J = 11, Q = 12, K = 13, A = 14. */
  type Rank = r: int | 2 <= r <= 14 witness 2

  datatype Card = Card(rank: Rank, suit: Suit)

  /** The source's suit order: Hearts, Diamonds, Clubs, Spades. */
  function SuitAt(i: nat): Suit
    requires i < 4
  {
    if i == 0 then Hearts else if i == 1 then Diamonds else if i == 2 then Clubs else Spades
  }

  function SuitIndex(s: Suit): (i: nat)
    ensures i < 4 && SuitAt(i) == s
  {
    match s
    case Hearts => 0
    case Diamonds => 1
    case Clubs => 2
    case Spades => 3
  }

  /** Rank text as written by the environment, the simulator and the
      evaluator: "2".."10", "J", "Q", "K", "A". */
  function RankText(r: Rank): string {
    if r == 14 then "A"
    else if r == 13 then "K"
    else if r == 12 then "Q"
    else if r == 11 then "J"
    else if r == 10 then "10"
    else [('0' as int + r) as char]
  }

  /** The one-letter suit code "H", "D", "C", "S". */
  function SuitLetter(s: Suit): char {
    match s
    case Hearts => 'H'
    case Diamonds => 'D'
    case Clubs => 'C'
    case Spades => 'S'
  }

  /** No element occurs twice. */
  predicate Distinct<T(==)>(s: seq<T>) {
    forall i, j :: 0 <= i < j < |s| ==> s[i] != s[j]
  }

  /** In a sequence without repetitions every element has multiplicity one. */
  lemma {:induction false} DistinctMultiplicity<T>(s: seq<T>, x: T)
    requires Distinct(s)
    ensures multiset(s)[x] == if x in s then 1 else 0
  {
    if |s| > 0 {
      assert s == [s[0]] + s[1..];
      assert Distinct(s[1..]);
      DistinctMultiplicity(s[1..], x);
      if x == s[0] {
        assert x !in s[1..];
      }
    }
  }

  /** Two sequences with the same elements and the same head have tails
      with the same elements. */
  lemma TailMultiset<T>(a: seq<T>, b: seq<T>)
    requires |a| > 0 && |b| > 0 && a[0] == b[0] && multiset(a) == multiset(b)
    ensures multiset(a[1..]) == multiset(b[1..])
  {
    assert a == [a[0]] + a[1..];
    assert b == [b[0]] + b[1..];
    assert multiset(a) == multiset{a[0]} + multiset(a[1..]);
    assert multiset(b) == multiset{a[0]} + multiset(b[1..]);
    forall x
      ensures multiset(a[1..])[x] == multiset(b[1..])[x]
    {
      assert multiset(a)[x] == multiset{a[0]}[x] + multiset(a[1..])[x];
      assert multiset(b)[x] == multiset{a[0]}[x] + multiset(b[1..])[x];
    }
  }

  /** Removing the element at one position removes one copy of it. */
  lemma RemoveAt<T>(s: seq<T>, k: nat)
    requires k < |s|
    ensures multiset(s) == multiset{s[k]} + multiset(s[..k] + s[k + 1..])
  {
    assert s == s[..k] + [s[k]] + s[k + 1..];
  }

  /** An element found at two positions occurs at least twice. */
  lemma RepeatedMultiplicity<T>(s: seq<T>, i: nat, j: nat)
    requires i < j < |s| && s[i] == s[j]
    ensures multiset(s)[s[i]] >= 2
  {
    RemoveAt(s, j);
    var t := s[..j] + s[j + 1..];
    assert t[i] == s[i];
    assert s[i] in multiset(t);
  }

  /** Swapping two positions keeps the elements. */
  function Swap<T>(s: seq<T>, i: nat, j: nat): (r: seq<T>)
    requires i < |s| && j < |s|
    ensures |r| == |s| && multiset(r) == multiset(s)
    ensures r[i] == s[j] && r[j] == s[i]
    ensures forall k :: 0 <= k < |s| && k != i && k != j ==> r[k] == s[k]
  {
    var r := s[i := s[j]][j := s[i]];
    assert multiset(s[i := s[j]]) == multiset(s) - multiset{s[i]} + multiset{s[j]};
    r
  }

  /** The draws `random.shuffle` can make on a list of length n: the k-th
      draw picks a position in 0..n-1-k for i = n-1-k, for i from n-1
      down to 1. */
  predicate ValidShuffleDraws(n: nat, draws: seq<nat>) {
    && |draws| == (if n == 0 then 0 else n - 1)
    && forall k :: 0 <= k < |draws| ==> draws[k] <= n - 1 - k
  }

  /** Python's `random.shuffle` (Fisher–Yates) driven by the draws it would
      take from the generator: for i from len-1 down to 1 it swaps
      position i with a drawn position j <= i. Draws k.. are still to be
      applied. */
  function ShuffleFrom<T>(s: seq<T>, draws: seq<nat>, k: nat): (r: seq<T>)
    requires ValidShuffleDraws(|s|, draws) && k <= |draws|
    ensures |r| == |s| && multiset(r) == multiset(s)
    decreases |draws| - k
  {
    if k == |draws| then s
    else ShuffleFrom(Swap(s, |s| - 1 - k, draws[k]), draws, k + 1)
  }

  function Shuffle<T>(s: seq<T>, draws: seq<nat>): (r: seq<T>)
    requires ValidShuffleDraws(|s|, draws)
    ensures |r| == |s| && multiset(r) == multiset(s)
  {
    ShuffleFrom(s, draws, 0)
  }

  /** Two sequences holding the same elements: if one has no repetitions
      neither has the other. */
  lemma {:induction false} PermutationKeepsDistinct<T>(a: seq<T>, b: seq<T>)
    requires multiset(a) == multiset(b) && Distinct(a)
    ensures Distinct(b)
  {
    forall i, j | 0 <= i < j < |b|
      ensures b[i] != b[j]
    {
      if b[i] == b[j] {
        RepeatedMultiplicity(b, i, j);
        DistinctMultiplicity(a, b[i]);
      }
    }
  }

  /** The 52 cards in rank-major order (2 of each suit, then 3, ...):
      position 4 * (rank - 2) + suit index. */
  function RankMajorDeck(): (d: seq<Card>)
    ensures |d| == 52
  {
    seq(52, i requires 0 <= i < 52 => Card(2 + i / 4, SuitAt(i % 4)))
  }

  /** The rank-major deck holds every card exactly once. */
  lemma RankMajorDeckComplete()
    ensures Distinct(RankMajorDeck())
    ensures forall c: Card :: RankMajorDeck()[4 * (c.rank - 2) + SuitIndex(c.suit)] == c
  {
    var d := RankMajorDeck();
    forall i, j | 0 <= i < j < 52
      ensures d[i] != d[j]
    {
      if i / 4 == j / 4 {
        assert i % 4 != j % 4;
        assert SuitIndex(d[i].suit) != SuitIndex(d[j].suit);
      }
    }
  }
}
