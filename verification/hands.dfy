/** Scoring of a hand (`cardsValue`). The hand is summed with every Ace
    worth 11; when that sum exceeds 21, 10 is taken off for EVERY Ace in the
    hand at once, not one Ace at a time. */
module Hands {
  import opened Cards

  /** Sum of the card values, Aces counted as 11: the first loop of the scorer. */
  function RawSum(hand: seq<Card>): int
  {
    if |hand| == 0 then 0
    else RawSum(hand[..|hand| - 1]) + Value(hand[|hand| - 1].rank)
  }

  /** Number of Aces in the hand. */
  function Aces(hand: seq<Card>): nat
  {
    if |hand| == 0 then 0
    else Aces(hand[..|hand| - 1]) + (if hand[|hand| - 1].rank == Ace then 1 else 0)
  }

  /** Value of a rank with the Ace counted as 1. */
  function HardValue(rank: Rank): (v: int)
    ensures 1 <= v <= 10
  {
    if rank == Ace then 1 else Value(rank)
  }

  /** The hard total: every Ace counted as 1. */
  function HardTotal(hand: seq<Card>): int
  {
    if |hand| == 0 then 0
    else HardTotal(hand[..|hand| - 1]) + HardValue(hand[|hand| - 1].rank)
  }

  lemma {:induction false} HardTotalIsRawSumLessAces(hand: seq<Card>)
    ensures HardTotal(hand) == RawSum(hand) - 10 * Aces(hand)
    ensures Aces(hand) <= |hand|
  {
    if |hand| > 0 {
      HardTotalIsRawSumLessAces(hand[..|hand| - 1]);
    }
  }

  /** The scored total of a hand, as `cardsValue` computes it. */
  function Total(hand: seq<Card>): (t: int)
    ensures HardTotal(hand) <= t <= RawSum(hand)
    ensures |hand| <= t
  {
    HardTotalIsRawSumLessAces(hand);
    HardTotalAtLeastSize(hand);
    var summ := RawSum(hand);
    if summ > 21 then summ - 10 * Aces(hand) else summ
  }

  lemma {:induction false} HardTotalAtLeastSize(hand: seq<Card>)
    ensures |hand| <= HardTotal(hand)
  {
    if |hand| > 0 {
      HardTotalAtLeastSize(hand[..|hand| - 1]);
    }
  }

  /** The two regimes of the scorer, stated against the hard total: at most
      21 the plain sum stands; above 21 every Ace is counted as 1. */
  lemma TotalRegimes(hand: seq<Card>)
    ensures RawSum(hand) <= 21 ==> Total(hand) == RawSum(hand)
    ensures RawSum(hand) > 21 ==> Total(hand) == HardTotal(hand)
    ensures Aces(hand) == 0 ==> Total(hand) == RawSum(hand)
  {
    HardTotalIsRawSumLessAces(hand);
  }

  /** Appending one card adds its value to each running sum. */
  lemma AppendCard(hand: seq<Card>, c: Card)
    ensures RawSum(hand + [c]) == RawSum(hand) + Value(c.rank)
    ensures HardTotal(hand + [c]) == HardTotal(hand) + HardValue(c.rank)
    ensures Aces(hand + [c]) == Aces(hand) + (if c.rank == Ace then 1 else 0)
  {
    assert (hand + [c])[..|hand|] == hand;
  }

  /** Two cards never score above 21: only two Aces reach a raw 22, and
      those two are then both softened. */
  lemma TwoCardsNeverBust(hand: seq<Card>)
    requires |hand| == 2
    ensures Total(hand) <= 21
  {
    SumsOfPair(hand[0], hand[1]);
    assert hand == [hand[0], hand[1]];
  }

  lemma SumsOfPair(a: Card, b: Card)
    ensures RawSum([a, b]) == Value(a.rank) + Value(b.rank)
    ensures Aces([a, b]) == (if a.rank == Ace then 1 else 0) + (if b.rank == Ace then 1 else 0)
  {
    AppendCard([], a);
    AppendCard([a], b);
    assert [] + [a] == [a];
    assert [a] + [b] == [a, b];
  }

  lemma AceAndKingMakeTwentyOne(s: Suit, t: Suit)
    ensures Total([Card(Ace, s, false), Card(12, t, false)]) == 21
  {
    SumsOfPair(Card(Ace, s, false), Card(12, t, false));
  }

  lemma ThreeAcesAndNineMakeTwelve(s: Suit)
    ensures Total([Card(Ace, 0, false), Card(Ace, 1, false), Card(Ace, 2, false), Card(8, s, false)]) == 12
  {
    var a0, a1, a2, nine := Card(Ace, 0, false), Card(Ace, 1, false), Card(Ace, 2, false), Card(8, s, false);
    SumsOfPair(a0, a1);
    AppendCard([a0, a1], a2);
    AppendCard([a0, a1, a2], nine);
    assert [a0, a1] + [a2] == [a0, a1, a2];
    assert [a0, a1, a2] + [nine] == [a0, a1, a2, nine];
  }

  // A reference scorer softening one Ace at a time, re-checking after each.

  function Soften(total: int, aces: nat): (t: int)
    ensures total - 10 * aces <= t <= total
    decreases aces
  {
    if total > 21 && aces > 0 then Soften(total - 10, aces - 1) else total
  }

  /** Total with Aces softened one at a time while the hand is over 21. */
  function IterativeTotal(hand: seq<Card>): int
  {
    Soften(RawSum(hand), Aces(hand))
  }

  /** The scorer agrees with one-at-a-time softening when the hand holds at
      most one Ace, and otherwise never scores higher than it. */
  lemma TotalVersusIterative(hand: seq<Card>)
    ensures Aces(hand) <= 1 ==> Total(hand) == IterativeTotal(hand)
    ensures Total(hand) <= IterativeTotal(hand)
  {
  }

  /** Two Aces score 2 here, where softening one Ace at a time gives 12. */
  lemma TwoAcesScoreTwo(s: Suit, t: Suit)
    ensures IterativeTotal([Card(Ace, s, false), Card(Ace, t, false)]) == 12
    ensures Total([Card(Ace, s, false), Card(Ace, t, false)]) == 2
  {
    SumsOfPair(Card(Ace, s, false), Card(Ace, t, false));
  }
}
