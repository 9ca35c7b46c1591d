/** Playing cards: a rank and suit identity, the face-down flag, and the
    point value the card derives from its rank. */
module Cards {

  /** Index into the rank symbol table: 0 is the Ace, 12 the King. */
  type Rank = r: int | 0 <= r < 13

  /** Index into the suit symbol table: clubs, diamonds, hearts, spades. */
  type Suit = s: int | 0 <= s < 4

  const Ace: Rank := 0

  const RankSymbols: seq<string> := ["A", "2", "3", "4", "5", "6", "7", "8", "9", "10", "J", "Q", "K"]
  const SuitSymbols: seq<string> := ["clubs", "diamonds", "hearts", "spades"]

  /** A card. `flipped` is true while the card lies face down: cards are
      created face down and turned face up when they are dealt. */
  datatype Card = Card(rank: Rank, suit: Suit, flipped: bool)

  /** The point value a card gets when it is created. The decision is made on
      the rank's symbol, as the card constructor does; the contract states the
      resulting rule on the rank index. */
  function Value(rank: Rank): (v: int)
    ensures rank == Ace ==> v == 11
    ensures 9 <= rank ==> v == 10
    ensures 0 < rank < 9 ==> v == rank + 1
    ensures 2 <= v <= 11
    ensures v == 11 <==> rank == Ace
  {
    var symbol := RankSymbols[rank];
    if symbol == "10" || symbol == "J" || symbol == "Q" || symbol == "K" then 10
    else if symbol == "A" then 11
    else rank + 1
  }

  /** Turns a card over: its identity stays, its orientation is negated. */
  function Flip(c: Card): (f: Card)
    ensures f.rank == c.rank && f.suit == c.suit
    ensures f.flipped != c.flipped
    ensures Value(f.rank) == Value(c.rank)
  {
    c.(flipped := !c.flipped)
  }

  /** Turning a card over twice gives the card back. */
  lemma FlipTwice(c: Card)
    ensures Flip(Flip(c)) == c
  {
  }

  /** What the table shows for a card: the common back, or the front naming
      rank and suit. */
  datatype Picture = CardBack | Front(rankSymbol: string, suitSymbol: string)

  function Image(c: Card): (p: Picture)
    ensures p == CardBack <==> c.flipped
    ensures p.Front? ==> p.rankSymbol == RankSymbols[c.rank] && p.suitSymbol == SuitSymbols[c.suit]
  {
    if c.flipped then CardBack else Front(RankSymbols[c.rank], SuitSymbols[c.suit])
  }

  /** Every card of the hand lies face up. */
  predicate FaceUp(hand: seq<Card>)
  {
    forall i | 0 <= i < |hand| :: !hand[i].flipped
  }
}
