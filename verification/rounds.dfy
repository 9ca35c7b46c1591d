/** The phases a game passes through and what each key press does in each
    phase. Between key presses the engine is in one of three phases:
    between rounds, in a round on the player's turn, or before the first
    deal (the starting state, which already has the player's turn flag set). */
module Rounds {
  import opened Cards
  import opened Hands
  import opened Deck
  import opened Dealer
  import opened Engine

  /** A round is over: both hands discarded, the player's turn has ended. */
  predicate Between(g: Game)
  {
    g.playerHand == [] && g.dealerHand == [] && !g.pTurn
  }

  /** A round is dealt and waiting for the player: the dealer holds one
      hidden and one open card, the player at least two open cards and is not
      over 21. */
  predicate InRound(g: Game)
  {
    && g.pTurn
    && |g.dealerHand| == 2 && g.dealerHand[0].flipped && !g.dealerHand[1].flipped
    && |g.playerHand| >= 2 && FaceUp(g.playerHand) && Total(g.playerHand) <= 21
  }

  /** No round has been dealt yet, but the player's turn flag is set: `d`
      may already have given the player open cards. */
  predicate BeforeFirstDeal(g: Game)
  {
    g.pTurn && g.dealerHand == [] && FaceUp(g.playerHand) && Total(g.playerHand) <= 21
  }

  /** The invariant of the engine between key presses. A draw that does
      not bust leaves its choice pending; space and unbound keys keep it,
      the next `d`, `s` or `l` overwrites it before it is read, and the
      next deal resets it. */
  predicate Inv(g: Game)
  {
    && ValidDeck(g.deck)
    && (g.pChoice == NoChoice || g.pChoice == Hit) && g.dAction == NoMove
    && (Between(g) || InRound(g) || BeforeFirstDeal(g))
  }

  lemma StartIsBeforeFirstDeal(choices: seq<nat>)
    ensures Inv(Start(choices)) && BeforeFirstDeal(Start(choices))
  {
  }

  /** Once a round has been dealt, no key press can reach the dealer's
      first card while the dealer holds no card. */
  lemma SafeAfterFirstDeal(g: Game, key: Key, choices: seq<nat>)
    requires Inv(g) && !BeforeFirstDeal(g)
    ensures StepSafe(g, key, choices)
  {
  }

  /** Space deals a round from an empty player hand, with the scoreboard
      untouched: the next two cards of the stream open to the player, the
      third hidden and the fourth open to the dealer. The deck loses those
      four cards; when it held four or fewer it is rebuilt along the way. */
  lemma {:induction false} SpaceDeals(g: Game, choices: seq<nat>)
    requires Inv(g) && g.playerHand == []
    ensures InRound(Step(g, Space, choices)) && Inv(Step(g, Space, choices))
    ensures Step(g, Space, choices).pScore == g.pScore && Step(g, Space, choices).dScore == g.dScore
    ensures
      var s := Stream(g.deck, choices);
      && Step(g, Space, choices).playerHand == [Flip(s[0]), Flip(s[1])]
      && Step(g, Space, choices).dealerHand == [s[2], Flip(s[3])]
      && Step(g, Space, choices).deck == Remaining(g.deck, 4, choices)
    ensures |g.deck| > 4 ==> Step(g, Space, choices).deck == g.deck[4..]
  {
    var r := NextRound(g, choices);
    assert Step(g, Space, choices) == r;
    TwoCardsNeverBust(r.playerHand);
    RestCases(g.deck, BuildDeck(choices), 4);
  }

  /** `d` during a round: the top card is added face up. If that takes the
      player over 21 the round ends with a point to the dealer; otherwise the
      round goes on with the longer hand, the deck less its top card (rebuilt
      if that emptied it) and the draw choice left pending. */
  lemma {:induction false} DrawDuringRound(g: Game, choices: seq<nat>)
    requires Inv(g) && InRound(g)
    ensures
      var r := Step(g, KeyD, choices);
      var d := DrawCard(g.playerHand, g.deck, choices);
      && Inv(r)
      && d.hand == g.playerHand + [Flip(g.deck[0])]
      && (Total(d.hand) <= 21 ==>
            && InRound(r) && r == g.(playerHand := d.hand, deck := d.deck, pChoice := Hit))
      && (Total(d.hand) > 21 ==>
            && Between(r) && r.dScore == g.dScore + 1 && r.pScore == g.pScore && r.deck == d.deck)
  {
    var d := DrawCard(g.playerHand, g.deck, choices);
    var r := Step(g, KeyD, choices);
    if Total(d.hand) <= 21 {
      assert r == g.(playerHand := d.hand, deck := d.deck, pChoice := Hit);
      assert FaceUp(d.hand);
    } else {
      assert r == PlayerLoss(g.(playerHand := d.hand, deck := d.deck, pChoice := Lose,
                                pTurn := false, dealerHand := FlipFirst(g.dealerHand)));
    }
  }

  /** A draw left pending between key presses is never acted on: space and
      unbound keys leave the state as it is, and `d`, `s` and `l` set their
      own choice before `playerAction` reads it, so they act as if nothing
      were pending. */
  lemma PendingDrawUnread(g: Game, key: Key, choices: seq<nat>)
    requires Inv(g) && InRound(g) && g.pChoice == Hit
    ensures key == Space || key == OtherKey ==> Step(g, key, choices) == g && Step(g, key, choices).pChoice == Hit
    ensures IsPlayKey(key) ==> Step(g, key, choices) == Step(g.(pChoice := NoChoice), key, choices)
  {
    if IsPlayKey(key) {
      assert g.(pChoice := NoChoice).(pChoice := ChoiceOf(key)) == g.(pChoice := ChoiceOf(key));
    }
  }

  /** `l` during a round: the player forfeits, the dealer gains exactly one
      point and the round is over. */
  lemma ForfeitDuringRound(g: Game, choices: seq<nat>)
    requires Inv(g) && InRound(g)
    ensures
      var r := Step(g, KeyL, choices);
      && Inv(r) && Between(r) && r.deck == g.deck
      && r.dScore == g.dScore + 1 && r.pScore == g.pScore
  {
  }

  /** `s` during a round: the dealer turns its hidden card over, draws its
      `k` cards off the deck, and the round is over. A dealer total above
      21, or below the player's, gives the player one point; a higher dealer
      total gives the dealer one point; equal totals give none. */
  lemma StandDuringRound(g: Game, choices: seq<nat>)
    requires Inv(g) && InRound(g)
    ensures
      var r := Step(g, KeyS, choices);
      var f := Total(DealerPlay(g.dealerHand, g.deck, choices).hand);
      var p := Total(g.playerHand);
      && Inv(r) && Between(r)
      && (f > 21 ==> r.pScore == g.pScore + 1 && r.dScore == g.dScore)
      && (f <= 21 && f < p ==> r.pScore == g.pScore + 1 && r.dScore == g.dScore)
      && (f <= 21 && f > p ==> r.dScore == g.dScore + 1 && r.pScore == g.pScore)
      && (f == p ==> r.pScore == g.pScore && r.dScore == g.dScore)
  {
    var turned := g.(pChoice := Stand, pTurn := false);
    StandIsDealerTurn(g, choices);
    assert turned.dealerHand == g.dealerHand && turned.deck == g.deck;
    assert turned.playerHand == g.playerHand;
  }

  /** The cards of `s` during a round: the dealer's hand is its two cards,
      the hidden one turned over, followed by the next `k` cards of the
      stream, turned over; the deck is what `k` draws leave. */
  lemma StandTakesFromStream(g: Game, choices: seq<nat>)
    requires Inv(g) && InRound(g)
    ensures
      var play := DealerPlay(g.dealerHand, g.deck, choices);
      var k := |play.hand| - |g.dealerHand|;
      && k < |Stream(g.deck, choices)|
      && play.hand[..|g.dealerHand|] == [Flip(g.dealerHand[0]), g.dealerHand[1]]
      && play.hand[|g.dealerHand|..] == Opened(Stream(g.deck, choices)[..k])
      && Step(g, KeyS, choices).deck == Remaining(g.deck, k, choices)
  {
    DealerPlayFromStream(g.dealerHand, g.deck, choices);
    var turned := g.(pChoice := Stand, pTurn := false);
    StandIsDealerTurn(g, choices);
    assert turned.dealerHand == g.dealerHand && turned.deck == g.deck;
  }

  /** `s` during a round is the dealer's turn, with the player's turn over. */
  lemma StandIsDealerTurn(g: Game, choices: seq<nat>)
    requires Inv(g) && InRound(g)
    ensures Step(g, KeyS, choices) == DealerAction(g.(pChoice := Stand, pTurn := false), choices)
  {
    PlayerStandIsDealerAction(g.(pChoice := Stand), choices);
  }

  /** Every key press the engine survives keeps the invariant. */
  lemma StepKeepsInv(g: Game, key: Key, choices: seq<nat>)
    requires Inv(g) && StepSafe(g, key, choices)
    ensures Inv(Step(g, key, choices))
  {
    match key
    case Space =>
      if g.playerHand == [] {
        SpaceDeals(g, choices);
      }
    case KeyD =>
      if InRound(g) {
        DrawDuringRound(g, choices);
      } else if BeforeFirstDeal(g) {
        DrawBeforeFirstDeal(g, choices);
      }
    case KeyS =>
      if InRound(g) {
        StandDuringRound(g, choices);
      }
    case KeyL =>
      if InRound(g) {
        ForfeitDuringRound(g, choices);
      }
    case OtherKey =>
  }

  /** `d` before the first deal, when it does not take the player over 21,
      adds an open card to the player's hand and stays before the first deal;
      space then no longer deals. */
  lemma {:induction false} DrawBeforeFirstDeal(g: Game, choices: seq<nat>)
    requires Inv(g) && BeforeFirstDeal(g) && StepSafe(g, KeyD, choices)
    ensures
      var r := Step(g, KeyD, choices);
      && Inv(r) && BeforeFirstDeal(r)
      && r.playerHand == g.playerHand + [Flip(g.deck[0])]
      && Step(r, Space, choices) == r
  {
    var d := DrawCard(g.playerHand, g.deck, choices);
    var r := Step(g, KeyD, choices);
    assert r == g.(playerHand := d.hand, deck := d.deck, pChoice := Hit);
    assert FaceUp(d.hand);
  }

  /** Once a round has been dealt the game never returns to the phase
      before the first deal: every key press keeps it between rounds or in
      a round. */
  lemma AfterFirstDealStays(g: Game, key: Key, choices: seq<nat>)
    requires Inv(g) && !BeforeFirstDeal(g) && StepSafe(g, key, choices)
    ensures Inv(Step(g, key, choices))
    ensures Between(Step(g, key, choices)) || InRound(Step(g, key, choices))
  {
    StepKeepsInv(g, key, choices);
    match key
    case Space =>
      if g.playerHand == [] {
        SpaceDeals(g, choices);
      }
    case KeyD =>
      if InRound(g) {
        DrawDuringRound(g, choices);
      }
    case KeyS =>
      if InRound(g) {
        StandDuringRound(g, choices);
      }
    case KeyL =>
      if InRound(g) {
        ForfeitDuringRound(g, choices);
      }
    case OtherKey =>
  }

  /** The deck in play never holds more than the 52 canonical cards, and no
      card more often than the canonical deck does. */
  lemma DeckWithinCanonical(g: Game)
    requires Inv(g)
    ensures multiset(g.deck) <= multiset(CanonicalDeck())
    ensures |g.deck| <= 52
  {
    ValidDeckWithinCanonical(g.deck);
    CanonicalDeckCount();
    var all, held := multiset(CanonicalDeck()), multiset(g.deck);
    assert all == held + (all - held);
  }
}
