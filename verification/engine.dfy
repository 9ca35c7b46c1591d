/** The round state machine and the scoreboard: the player's action, the
    dealer's action, the score comparison and its three outcomes, dealing a
    new round, and the dispatch of key commands. */
module Engine {
  import opened Cards
  import opened Hands
  import opened Deck
  import opened Dealer

  /** The player's pending choice, `$pChoice`: 0 none, 1 draw, 2 stand,
      3 lose (a bust or a forfeit). */
  datatype Choice = NoChoice | Hit | Stand | Lose

  /** The keys the engine reacts to: space deals, `d` draws, `s` stands,
      `l` forfeits; every other key is ignored. */
  datatype Key = Space | KeyD | KeyS | KeyL | OtherKey

  /** The engine state: the shared deck, both hands, whether it is the
      player's turn, the pending choices and the scoreboard. */
  datatype Game = Game(
    deck: seq<Card>,
    playerHand: seq<Card>,
    dealerHand: seq<Card>,
    pTurn: bool,
    pChoice: Choice,
    dAction: DealerMove,
    pScore: nat,
    dScore: nat)

  /** The state before any key is pressed: a freshly built deck, empty
      hands, the player's turn flag already set, and no points. */
  function Start(choices: seq<nat>): (g: Game)
    ensures ValidDeck(g.deck) && |g.deck| == 52
    ensures g.playerHand == [] && g.dealerHand == [] && g.pTurn
    ensures g.pChoice == NoChoice && g.dAction == NoMove
    ensures g.pScore == 0 && g.dScore == 0
  {
    BuildDeckValid(choices);
    Game(BuildDeck(choices), [], [], true, NoChoice, NoMove, 0, 0)
  }

  /** Both hands discarded and both pending choices reset. */
  predicate Cleared(g: Game)
  {
    g.playerHand == [] && g.dealerHand == [] && g.pChoice == NoChoice && g.dAction == NoMove
  }

  function ClearHands(g: Game): Game
  {
    g.(playerHand := [], dealerHand := [], pChoice := NoChoice, dAction := NoMove)
  }

  /** The dealer loses: one point to the player, the round is cleared. */
  function DealerLoss(g: Game): (r: Game)
    ensures Cleared(r) && r.pScore == g.pScore + 1 && r.dScore == g.dScore
    ensures r.deck == g.deck && r.pTurn == g.pTurn
  {
    ClearHands(g).(pScore := g.pScore + 1)
  }

  /** The player loses: one point to the dealer, the round is cleared. */
  function PlayerLoss(g: Game): (r: Game)
    ensures Cleared(r) && r.dScore == g.dScore + 1 && r.pScore == g.pScore
    ensures r.deck == g.deck && r.pTurn == g.pTurn
  {
    ClearHands(g).(dScore := g.dScore + 1)
  }

  /** A draw: no point to anyone, the round is cleared. */
  function GameDraw(g: Game): (r: Game)
    ensures Cleared(r) && r.pScore == g.pScore && r.dScore == g.dScore
    ensures r.deck == g.deck && r.pTurn == g.pTurn
  {
    ClearHands(g)
  }

  /** Compares the two totals: the higher one wins a point, equal totals
      score nothing; either way the round is cleared. */
  function ScoreComparison(g: Game): (r: Game)
    ensures Cleared(r) && r.deck == g.deck && r.pTurn == g.pTurn
    ensures Total(g.dealerHand) < Total(g.playerHand) ==> r.pScore == g.pScore + 1 && r.dScore == g.dScore
    ensures Total(g.dealerHand) > Total(g.playerHand) ==> r.dScore == g.dScore + 1 && r.pScore == g.pScore
    ensures Total(g.dealerHand) == Total(g.playerHand) ==> r.pScore == g.pScore && r.dScore == g.dScore
  {
    var dealer, player := Total(g.dealerHand), Total(g.playerHand);
    if dealer < player then DealerLoss(g)
    else if dealer > player then PlayerLoss(g)
    else GameDraw(g)
  }

  /** The dealer's turn: reveal, draw by the rule, then either a bust (a
      point to the player) or the score comparison. The outcome is fixed by
      the dealer's final total `f` against the player's total `p`; the deck
      is left as the `k` cards the dealer drew leave it. */
  function DealerAction(g: Game, choices: seq<nat>): (r: Game)
    requires |g.dealerHand| > 0 && |g.deck| > 0
    ensures Cleared(r) && r.pTurn == g.pTurn && |r.deck| > 0
    ensures ValidDeck(g.deck) ==> ValidDeck(r.deck)
    ensures r.pScore >= g.pScore && r.dScore >= g.dScore && r.pScore + r.dScore <= g.pScore + g.dScore + 1
    ensures
      var f := Total(DealerPlay(g.dealerHand, g.deck, choices).hand);
      var p := Total(g.playerHand);
      && r.pScore == g.pScore + (if f > 21 || f < p then 1 else 0)
      && r.dScore == g.dScore + (if f <= 21 && f > p then 1 else 0)
    ensures
      var k := |DealerPlay(g.dealerHand, g.deck, choices).hand| - |g.dealerHand|;
      k < |Stream(g.deck, choices)| && r.deck == Remaining(g.deck, k, choices)
  {
    var play := DealerPlay(g.dealerHand, g.deck, choices);
    DealerPlayFromStream(g.dealerHand, g.deck, choices);
    var played := g.(dealerHand := play.hand, deck := play.deck, dAction := Policy(Total(play.hand)));
    // The loop only ends on a stand or a bust.
    var r := if played.dAction == Stands then ScoreComparison(played) else DealerLoss(played);
    assert r.deck == played.deck;
    r
  }

  /** The choice `playerAction` acts on: a hand already over 21 forces a loss. */
  function EffectiveChoice(g: Game): Choice
  {
    if Total(g.playerHand) > 21 then Lose else g.pChoice
  }

  /** Whether `playerAction` will touch the dealer's first card: on a stand,
      on a loss, and on a draw that busts. */
  predicate TouchesDealer(g: Game, choices: seq<nat>)
  {
    var c := EffectiveChoice(g);
    || c == Stand
    || c == Lose
    || (c == Hit && |g.deck| > 0 && Total(DrawCard(g.playerHand, g.deck, choices).hand) > 21)
  }

  /** The middle of `playerAction`: a draw takes the top card and marks a
      bust as a loss, a stand hands over to the dealer, any other choice is
      left for the caller. */
  function PlayerMove(g: Game, choices: seq<nat>): (r: Game)
    requires |g.deck| > 0
    requires g.pChoice == Stand ==> |g.dealerHand| > 0
    ensures g.pChoice == Hit ==>
      var d := DrawCard(g.playerHand, g.deck, choices);
      r == g.(playerHand := d.hand, deck := d.deck, pChoice := if Total(d.hand) > 21 then Lose else Hit)
    ensures g.pChoice == Stand ==> r == DealerAction(g.(pTurn := false), choices) && r.pChoice == NoChoice
    ensures g.pChoice != Hit && g.pChoice != Stand ==> r == g
    ensures r.pScore >= g.pScore && r.dScore >= g.dScore && r.pScore + r.dScore <= g.pScore + g.dScore + 1
    ensures r.pChoice == Lose ==> r.pScore == g.pScore && r.dScore == g.dScore
    ensures |r.deck| > 0 && (ValidDeck(g.deck) ==> ValidDeck(r.deck))
  {
    if g.pChoice == Hit then
      var d := DrawCard(g.playerHand, g.deck, choices);
      var drawn := g.(playerHand := d.hand, deck := d.deck);
      if Total(d.hand) > 21 then drawn.(pChoice := Lose) else drawn
    else if g.pChoice == Stand then
      DealerAction(g.(pTurn := false), choices)
    else
      g
  }

  /** `playerAction`: acts on the pending choice. A draw adds one card and
      turns a bust into a loss; a stand ends the player's turn and runs the
      dealer; a loss ends the turn, reveals the dealer's card and gives the
      dealer a point. The scoreboard never goes down and gains at most one
      point. */
  function PlayerAction(g: Game, choices: seq<nat>): (r: Game)
    requires |g.deck| > 0
    requires TouchesDealer(g, choices) ==> |g.dealerHand| > 0
    ensures r.pScore >= g.pScore && r.dScore >= g.dScore
    ensures r.pScore + r.dScore <= g.pScore + g.dScore + 1
    ensures |r.deck| > 0 && (ValidDeck(g.deck) ==> ValidDeck(r.deck))
    ensures EffectiveChoice(g) == NoChoice ==> r == g
    ensures EffectiveChoice(g) == Lose ==>
      Cleared(r) && !r.pTurn && r.dScore == g.dScore + 1 && r.pScore == g.pScore && r.deck == g.deck
    ensures EffectiveChoice(g) == Stand ==>
      var f := Total(DealerPlay(g.dealerHand, g.deck, choices).hand);
      var p := Total(g.playerHand);
      && Cleared(r) && !r.pTurn
      && r.pScore == g.pScore + (if f > 21 || f < p then 1 else 0)
      && r.dScore == g.dScore + (if f <= 21 && f > p then 1 else 0)
    ensures EffectiveChoice(g) == Hit ==>
      var hand := g.playerHand + [Flip(g.deck[0])];
      var deck := DrawCard(g.playerHand, g.deck, choices).deck;
      && (Total(hand) <= 21 ==> r == g.(playerHand := hand, deck := deck))
      && (Total(hand) > 21 ==> Cleared(r) && !r.pTurn && r.dScore == g.dScore + 1 && r.pScore == g.pScore && r.deck == deck)
  {
    var g1 := if Total(g.playerHand) > 21 then g.(pChoice := Lose) else g;
    var g2 := PlayerMove(g1, choices);
    if g2.pChoice == Lose then
      PlayerLoss(g2.(pTurn := false, dealerHand := FlipFirst(g2.dealerHand)))
    else
      g2
  }

  /** On a stand, the deck `playerAction` leaves is the one the dealer's
      draws leave: the `k` cards the dealer added come off the top of the
      deck, continuing into the rebuilt deck when it runs out. */
  lemma PlayerStandTakesFromStream(g: Game, choices: seq<nat>)
    requires |g.deck| > 0 && |g.dealerHand| > 0 && EffectiveChoice(g) == Stand
    ensures
      var k := |DealerPlay(g.dealerHand, g.deck, choices).hand| - |g.dealerHand|;
      && k < |Stream(g.deck, choices)|
      && PlayerAction(g, choices).deck == Remaining(g.deck, k, choices)
  {
    PlayerStandIsDealerAction(g, choices);
    var turned := g.(pTurn := false);
    assert turned.dealerHand == g.dealerHand && turned.deck == g.deck;
  }

  /** On a stand `playerAction` is the dealer's turn, with the player's
      turn over. */
  lemma PlayerStandIsDealerAction(g: Game, choices: seq<nat>)
    requires |g.deck| > 0 && |g.dealerHand| > 0 && EffectiveChoice(g) == Stand
    ensures PlayerAction(g, choices) == DealerAction(g.(pTurn := false), choices)
  {
  }

  /** `playerStartingHand`: the next two cards, both turned face up. */
  function PlayerStartingHand(deck: seq<Card>, choices: seq<nat>): (r: Dealt)
    requires |deck| > 0
    ensures
      var s := Stream(deck, choices);
      && r.hand == [Flip(s[0]), Flip(s[1])]
      && r.deck == Remaining(deck, 2, choices)
    ensures |r.deck| > 0
    ensures ValidDeck(deck) ==> ValidDeck(r.deck) && !r.hand[0].flipped && !r.hand[1].flipped
  {
    var first := DrawCard([], deck, choices);
    OpenTwice(deck, choices);
    DrawCard(first.hand, first.deck, choices)
  }

  /** Two draws onto an empty hand: the first two stream cards, both turned
      over; from a valid deck both lie face up and the deck stays valid. */
  lemma OpenTwice(deck: seq<Card>, choices: seq<nat>)
    requires |deck| > 0
    ensures
      var first := DrawCard([], deck, choices);
      var e := DrawCard(first.hand, first.deck, choices);
      && e.hand == [Flip(Stream(deck, choices)[0]), Flip(Stream(deck, choices)[1])]
      && e.deck == Remaining(deck, 2, choices)
    ensures ValidDeck(deck) ==>
      var first := DrawCard([], deck, choices);
      var e := DrawCard(first.hand, first.deck, choices);
      && ValidDeck(e.deck) && !e.hand[0].flipped && !e.hand[1].flipped
  {
    DrawTwice([], DrawCard([], deck, choices).hand, deck, choices);
  }

  /** `dealerStartingHand`: the next two cards; the first is turned back
      face down, the second lies face up. */
  function DealerStartingHand(deck: seq<Card>, choices: seq<nat>): (r: Dealt)
    requires |deck| > 0
    ensures
      var s := Stream(deck, choices);
      && r.hand == [s[0], Flip(s[1])]
      && r.deck == Remaining(deck, 2, choices)
    ensures |r.deck| > 0
    ensures ValidDeck(deck) ==> ValidDeck(r.deck) && r.hand[0].flipped && !r.hand[1].flipped
  {
    var first := DrawCard([], deck, choices);
    HiddenThenOpen(deck, choices);
    DrawCard(FlipFirst(first.hand), first.deck, choices)
  }

  /** The top card turned back face down, then one more draw: the hand is
      the first two stream cards, only the second turned over. */
  lemma HiddenThenOpen(deck: seq<Card>, choices: seq<nat>)
    requires |deck| > 0
    ensures
      var e := DrawCard([deck[0]], DrawCard([], deck, choices).deck, choices);
      && FlipFirst(DrawCard([], deck, choices).hand) == [deck[0]]
      && e.hand == [Stream(deck, choices)[0], Flip(Stream(deck, choices)[1])]
      && e.deck == Remaining(deck, 2, choices)
    ensures ValidDeck(deck) ==>
      var e := DrawCard([deck[0]], DrawCard([], deck, choices).deck, choices);
      && deck[0].flipped && ValidDeck(e.deck) && !e.hand[1].flipped
  {
    DrawTwice([], [deck[0]], deck, choices);
    FlipFirstOfOne(deck[0]);
  }

  /** `nextRound`: both choices reset, the next four cards dealt (two open to
      the player, a hidden and an open one to the dealer), the turn given to
      the player. `playerAction` then finds nothing to do, since two cards
      never score above 21, so the scoreboard is untouched. */
  function NextRound(g: Game, choices: seq<nat>): (r: Game)
    requires |g.deck| > 0
    ensures
      var s := Stream(g.deck, choices);
      r == g.(pChoice := NoChoice, dAction := NoMove, pTurn := true,
              playerHand := [Flip(s[0]), Flip(s[1])], dealerHand := [s[2], Flip(s[3])],
              deck := Remaining(g.deck, 4, choices))
    ensures |r.deck| > 0
    ensures ValidDeck(g.deck) ==> ValidDeck(r.deck) && FaceUp(r.playerHand)
    ensures ValidDeck(g.deck) ==> r.dealerHand[0].flipped && !r.dealerHand[1].flipped
  {
    var player := PlayerStartingHand(g.deck, choices);
    var dealer := DealerStartingHand(player.deck, choices);
    DealTakesFour(g.deck, choices);
    DealKeepsValid(g.deck, choices);
    var dealt := g.(pChoice := NoChoice, dAction := NoMove, playerHand := player.hand,
                    dealerHand := dealer.hand, deck := dealer.deck, pTurn := true);
    TwoCardsNeverBust(player.hand);
    PlayerAction(dealt, choices)
  }

  /** The four cards of a deal are the next four of the stream, two to the
      player and then two to the dealer, and they leave what four draws
      leave. */
  lemma DealTakesFour(deck: seq<Card>, choices: seq<nat>)
    requires |deck| > 0
    ensures
      var player := PlayerStartingHand(deck, choices);
      var dealer := DealerStartingHand(player.deck, choices);
      var s := Stream(deck, choices);
      && |s| > 3
      && player.hand == [Flip(s[0]), Flip(s[1])]
      && dealer.hand == [s[2], Flip(s[3])]
      && dealer.deck == Remaining(deck, 4, choices)
  {
    DrawsCompose(deck, choices);
  }

  /** From a valid deck, a deal leaves a valid deck, gives the player two
      open cards and the dealer a hidden card and an open one. */
  lemma DealKeepsValid(deck: seq<Card>, choices: seq<nat>)
    requires |deck| > 0
    ensures ValidDeck(deck) ==>
      var player := PlayerStartingHand(deck, choices);
      var dealer := DealerStartingHand(player.deck, choices);
      && ValidDeck(dealer.deck) && FaceUp(player.hand)
      && dealer.hand[0].flipped && !dealer.hand[1].flipped
  {
  }

  /** The choice a command key sets before `playerAction` runs. */
  function ChoiceOf(key: Key): Choice
  {
    match key
    case KeyD => Hit
    case KeyS => Stand
    case KeyL => Lose
    case _ => NoChoice
  }

  predicate IsPlayKey(key: Key)
  {
    key == KeyD || key == KeyS || key == KeyL
  }

  /** The key press does not reach the dealer's first card while the dealer
      holds no card: `playerAction` and `dealerAction` would fail there, at
      `$dealerCards[0].flip`. */
  predicate StepSafe(g: Game, key: Key, choices: seq<nat>)
  {
    g.pTurn && IsPlayKey(key) && TouchesDealer(g.(pChoice := ChoiceOf(key)), choices) ==> |g.dealerHand| > 0
  }

  /** The key handler: space deals a new round only while the player holds
      no cards; `d`, `s` and `l` act only on the player's turn; every other
      key is ignored. Each key press raises the scoreboard by at most one
      point and never lowers it. */
  function Step(g: Game, key: Key, choices: seq<nat>): (r: Game)
    requires |g.deck| > 0
    requires StepSafe(g, key, choices)
    ensures r.pScore >= g.pScore && r.dScore >= g.dScore
    ensures r.pScore + r.dScore <= g.pScore + g.dScore + 1
    ensures |r.deck| > 0 && (ValidDeck(g.deck) ==> ValidDeck(r.deck))
    ensures IsPlayKey(key) && !g.pTurn ==> r == g
    ensures key == Space && g.playerHand != [] ==> r == g
    ensures key == OtherKey ==> r == g
  {
    match key
    case Space => SpaceKey(g, choices)
    case OtherKey => g
    case _ => PlayKey(g, key, choices)
  }

  /** Space: a new round only when the player holds no cards. */
  function SpaceKey(g: Game, choices: seq<nat>): (r: Game)
    requires |g.deck| > 0
    ensures r.pScore >= g.pScore && r.dScore >= g.dScore
    ensures r.pScore + r.dScore <= g.pScore + g.dScore + 1
    ensures |r.deck| > 0 && (ValidDeck(g.deck) ==> ValidDeck(r.deck))
    ensures g.playerHand != [] ==> r == g
  {
    if g.playerHand == [] then NextRound(g, choices) else g
  }

  /** `d`, `s` or `l`: set the choice and run `playerAction`, only on the
      player's turn. */
  function PlayKey(g: Game, key: Key, choices: seq<nat>): (r: Game)
    requires |g.deck| > 0 && IsPlayKey(key)
    requires StepSafe(g, key, choices)
    ensures r.pScore >= g.pScore && r.dScore >= g.dScore
    ensures r.pScore + r.dScore <= g.pScore + g.dScore + 1
    ensures |r.deck| > 0 && (ValidDeck(g.deck) ==> ValidDeck(r.deck))
    ensures !g.pTurn ==> r == g
  {
    if g.pTurn then PlayerAction(g.(pChoice := ChoiceOf(key)), choices) else g
  }
}
