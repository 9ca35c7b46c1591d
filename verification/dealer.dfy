/** The dealer: the fixed decision rule (`dealerTurn`) and the dealer's
    play, which reveals the hidden card and then draws while the rule says so
    (the loop of `dealerAction`). */
module Dealer {
  import opened Cards
  import opened Hands
  import opened Deck

  /** The dealer's decision, `$dAction`: 0 not decided, 1 draw, 2 stand, 3 bust. */
  datatype DealerMove = NoMove | Draws | Stands | Busts

  /** The dealer rule: draw below 17, stand on 17 to 21, bust above 21.
      Every total gets exactly one decision. */
  function Policy(total: int): (m: DealerMove)
    ensures m != NoMove
    ensures m == Draws <==> total < 17
    ensures m == Stands <==> 17 <= total <= 21
    ensures m == Busts <==> 21 < total
  {
    if total < 17 then Draws
    else if total >= 17 && total <= 21 then Stands
    else Busts
  }

  lemma PolicyExamples()
    ensures Policy(16) == Draws && Policy(17) == Stands
    ensures Policy(21) == Stands && Policy(22) == Busts
  {
  }

  /** The rule says draw for this hand. */
  predicate DealerWouldDraw(hand: seq<Card>)
  {
    Policy(Total(hand)) == Draws
  }

  /** The dealer's draw loop: while the rule says draw, take the top card.
      It stops because every card adds at least 1 to the hard total, which
      bounds the scored total from below. */
  function DealerDraws(hand: seq<Card>, deck: seq<Card>, choices: seq<nat>): (r: Dealt)
    requires |deck| > 0
    ensures |hand| <= |r.hand| && r.hand[..|hand|] == hand
    ensures !DealerWouldDraw(r.hand)
    ensures 17 <= Total(r.hand)
    ensures |r.deck| > 0
    ensures ValidDeck(deck) ==> ValidDeck(r.deck)
    decreases 17 - HardTotal(hand)
  {
    if DealerWouldDraw(hand) then
      var d := DrawCard(hand, deck, choices);
      AppendCard(hand, Flip(deck[0]));
      var r := DealerDraws(d.hand, d.deck, choices);
      assert r.hand[..|hand|] == d.hand[..|hand|];
      r
    else
      Dealt(hand, deck)
  }

  /** `extra`, added one card at a time to `hand`, was drawn while the rule
      said draw before each card. */
  predicate DrawnWhileDrawing(hand: seq<Card>, extra: seq<Card>)
    decreases |extra|
  {
    |extra| == 0 || (DealerWouldDraw(hand) && DrawnWhileDrawing(hand + [extra[0]], extra[1..]))
  }

  /** Every card the loop adds was drawn while the rule said draw, and,
      drawn from a valid deck, lies face up. */
  lemma {:induction false} DealerDrawsOnlyWhileDrawing(hand: seq<Card>, deck: seq<Card>, choices: seq<nat>)
    requires |deck| > 0
    ensures
      var r := DealerDraws(hand, deck, choices);
      && DrawnWhileDrawing(hand, r.hand[|hand|..])
      && (ValidDeck(deck) ==> FaceUp(r.hand[|hand|..]))
    decreases 17 - HardTotal(hand)
  {
    var r := DealerDraws(hand, deck, choices);
    if DealerWouldDraw(hand) {
      var d := DrawCard(hand, deck, choices);
      AppendCard(hand, Flip(deck[0]));
      DealerDrawsOnlyWhileDrawing(d.hand, d.deck, choices);
      var later := DealerDraws(d.hand, d.deck, choices);
      assert r == later;
      var extra := r.hand[|hand|..];
      assert r.hand[..|d.hand|] == d.hand;
      assert extra[0] == Flip(deck[0]);
      assert extra[1..] == later.hand[|d.hand|..];
      assert hand + [extra[0]] == d.hand;
    } else {
      assert r.hand[|hand|..] == [];
    }
  }

  /** The loop's cards come off the deck: the cards it adds are the next
      cards of the stream, turned over, and it leaves what as many draws
      leave. */
  lemma {:induction false} DealerDrawsFromStream(hand: seq<Card>, deck: seq<Card>, choices: seq<nat>)
    requires |deck| > 0
    ensures TakenFromStream(hand, deck, choices, DealerDraws(hand, deck, choices))
    decreases 17 - HardTotal(hand)
  {
    if DealerWouldDraw(hand) {
      var d := DrawCard(hand, deck, choices);
      DealerDrawsOnce(hand, deck, choices);
      DealerDrawsFromStream(d.hand, d.deck, choices);
      DealerDrawsBound(d.hand, d.deck, choices);
      var later := DealerDraws(d.hand, d.deck, choices);
      assert |later.hand| - |hand| < |Stream(deck, choices)| by {
        assert |later.hand| - |d.hand| <= 16;
        assert |Stream(deck, choices)| == |deck| + 52;
      }
      DrawThenMore(hand, deck, choices, d, later);
    } else {
      assert Stream(deck, choices)[..0] == [];
      assert Opened([]) == [];
    }
  }

  /** Since each card raises the hard total, the loop adds at most as many
      cards as take that total to 17. */
  lemma {:induction false} DealerDrawsBound(hand: seq<Card>, deck: seq<Card>, choices: seq<nat>)
    requires |deck| > 0
    ensures |DealerDraws(hand, deck, choices).hand| - |hand| <= (if HardTotal(hand) < 17 then 17 - HardTotal(hand) else 0)
    decreases 17 - HardTotal(hand)
  {
    if DealerWouldDraw(hand) {
      var d := DrawCard(hand, deck, choices);
      DealerDrawsOnce(hand, deck, choices);
      DealerDrawsBound(d.hand, d.deck, choices);
    }
  }

  /** One turn of the loop: the card drawn raises the hard total, which was
      below 17, and the loop goes on from the hand and deck the draw leaves. */
  lemma DealerDrawsOnce(hand: seq<Card>, deck: seq<Card>, choices: seq<nat>)
    requires |deck| > 0 && DealerWouldDraw(hand)
    ensures 0 <= HardTotal(hand) < HardTotal(DrawCard(hand, deck, choices).hand)
    ensures HardTotal(hand) < 17
    ensures DrawCard(hand, deck, choices).deck == Remaining(deck, 1, choices)
    ensures DealerDraws(hand, deck, choices) ==
      DealerDraws(DrawCard(hand, deck, choices).hand, DrawCard(hand, deck, choices).deck, choices)
  {
    HardTotalAtLeastSize(hand);
    AppendCard(hand, Flip(deck[0]));
    DrawCardRest(hand, deck, choices);
  }

  /** Turns the first card of a non-empty hand over. */
  function FlipFirst(hand: seq<Card>): (r: seq<Card>)
    requires |hand| > 0
    ensures |r| == |hand| && r[0] == Flip(hand[0]) && r[1..] == hand[1..]
    ensures Total(r) == Total(hand)
  {
    SameRanksSameTotal(hand, hand[0 := Flip(hand[0])]);
    hand[0 := Flip(hand[0])]
  }

  /** A lone card dealt face up and turned back lies as it lay in the deck. */
  lemma FlipFirstOfOne(c: Card)
    ensures FlipFirst([Flip(c)]) == [c]
  {
    FlipTwice(c);
  }

  /** The total depends only on the ranks of the cards. */
  lemma {:induction false} SameRanksSameTotal(a: seq<Card>, b: seq<Card>)
    requires |a| == |b|
    requires forall i | 0 <= i < |a| :: a[i].rank == b[i].rank
    ensures RawSum(a) == RawSum(b) && Aces(a) == Aces(b) && Total(a) == Total(b)
    decreases |a|
  {
    if |a| > 0 {
      SameRanksSameTotal(a[..|a| - 1], b[..|b| - 1]);
    }
  }

  /** The dealer's whole play: the hidden first card is turned face up, then
      the draw loop runs, taking its cards off the deck. */
  function DealerPlay(hand: seq<Card>, deck: seq<Card>, choices: seq<nat>): (r: Dealt)
    requires |hand| > 0 && |deck| > 0
    ensures |hand| <= |r.hand| && r.hand[0] == Flip(hand[0]) && r.hand[1..|hand|] == hand[1..]
    ensures 17 <= Total(r.hand)
    ensures Policy(Total(r.hand)) in {Stands, Busts}
    ensures Total(hand) >= 17 ==> |r.hand| == |hand|
    ensures DrawnWhileDrawing(r.hand[..|hand|], r.hand[|hand|..])
    ensures |r.deck| > 0
    ensures ValidDeck(deck) ==> ValidDeck(r.deck) && FaceUp(r.hand[|hand|..])
  {
    var revealed := FlipFirst(hand);
    var r := DealerDraws(revealed, deck, choices);
    DealerDrawsOnlyWhileDrawing(revealed, deck, choices);
    assert r.hand[..|hand|] == revealed;
    assert Total(hand) >= 17 ==> Policy(Total(r.hand[..|hand|])) != Draws;
    r
  }

  /** The dealer's play takes its cards off the deck: after the reveal, the
      `k` cards added are the next `k` cards of the stream turned over, and
      the deck left is what `k` draws leave. */
  lemma DealerPlayFromStream(hand: seq<Card>, deck: seq<Card>, choices: seq<nat>)
    requires |hand| > 0 && |deck| > 0
    ensures SuffixFromStream(|hand|, deck, choices, DealerPlay(hand, deck, choices))
  {
    DealerPlayTaken(hand, deck, choices);
    TakenSuffix(FlipFirst(hand), deck, choices, DealerPlay(hand, deck, choices), |hand|);
  }

  /** The dealer's play, after the reveal, is the draw loop's taking from
      the stream. */
  lemma DealerPlayTaken(hand: seq<Card>, deck: seq<Card>, choices: seq<nat>)
    requires |hand| > 0 && |deck| > 0
    ensures TakenFromStream(FlipFirst(hand), deck, choices, DealerPlay(hand, deck, choices))
  {
    DealerDrawsFromStream(FlipFirst(hand), deck, choices);
  }

  /** Past its first `n` cards, `r.hand` holds the next `k` cards of the
      stream turned over, and `r.deck` is what `k` draws leave. */
  predicate SuffixFromStream(n: nat, deck: seq<Card>, choices: seq<nat>, r: Dealt)
  {
    && n <= |r.hand|
    && |r.hand| - n < |Stream(deck, choices)|
    && r.hand[n..] == Opened(Stream(deck, choices)[..|r.hand| - n])
    && r.deck == Remaining(deck, |r.hand| - n, choices)
  }

  /** Cards taken from the stream onto a hand of `n` cards are the suffix
      past the first `n`. */
  lemma TakenSuffix(hand: seq<Card>, deck: seq<Card>, choices: seq<nat>, r: Dealt, n: nat)
    requires TakenFromStream(hand, deck, choices, r) && n == |hand|
    ensures SuffixFromStream(n, deck, choices, r)
  {
  }
}
