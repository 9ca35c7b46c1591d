# Blackjack engine model

This project is a Dafny model of the game engine in `Projekt2/Blackjack.rb`, a
Blackjack game in which one player plays against a fixed-rule dealer. The
engine covers five things:

- how a card is valued and turned over;
- how a hand is scored (`cardsValue`);
- the deck (`initializeDeck`, `drawCards`), which is rebuilt automatically when
  a draw empties it;
- the dealer's rule and play (`dealerTurn`, `dealerAction`);
- the round state machine with its scoreboard (`playerAction`,
  `scoreComparison`, `dealerLoss`, `playerLoss`, `gameDraw`, the starting
  hands, `nextRound`), driven by the keys `eventKeyHandler` dispatches.

The global variables of the program become one immutable `Engine.Game` value.
Each key press is the pure function `Engine.Step`.

Modules:

- `Cards`: ranks, suits, `Card`, the value rule, `flip`, what the table shows.
- `Hands`: the scorer and a one-Ace-at-a-time reference scorer.
- `Deck`: the canonical deck, the shuffle as a permutation selected by a
  choice sequence, building and drawing.
- `Dealer`: the decision rule, the draw loop and the dealer's whole play.
- `Engine`: the game state, the outcomes, the player's action, dealing and key
  dispatch.
- `Rounds`: the phases between key presses, the invariant every key press
  keeps, and what each key does in each phase.

Modelling decisions:

- `flipped == true` means the card lies face down, as in the code. Cards are
  created face down, and `drawCards` turns each card over as it is dealt.
- The shuffle of `Array#shuffle` takes a parameter `choices`. It is the sequence
  of index picks that selects the permutation. `Deck.ShuffleReaches` proves
  that every permutation is selected by some choice sequence, so the model
  leaves the order fully open.
- Each key press takes one choice sequence. It is used for any deck rebuild
  during that press. A fresh deck has 52 cards and one key press draws far
  fewer, so at most one rebuild happens per press.
- `$pHandValue` and `$dHandValue` are caches of `cardsValue`. `$dHandValue`
  is refreshed by `updateBoard` (Blackjack.rb:132) and `$pHandValue` by
  `playerAction` (:317, :324); `drawCards` refreshes neither, and `nextRound`
  displays a stale 0 right after the deal (:93-98). The one engine read,
  `scoreComparison` (:295-299), always sees the current totals, because
  `playerAction` calls `updateBoard` at :318 and the dealer loop calls it at
  :261 after every draw. So the model keeps no cache and computes `Total` of
  the hand where `scoreComparison` reads one.
- Where the code would dereference the dealer's first card while the dealer
  holds none, a `requires` excludes that call (`Engine.StepSafe`). This covers
  `s` before the first deal, `l` before the first deal, and a busting `d`
  before the first deal. Once a round has been dealt, the game stays between
  rounds or in a round (`Rounds.AfterFirstDealStays`), and from those phases
  no key press reaches that path (`Rounds.SafeAfterFirstDeal`).
- The cards a run of draws takes are described by `Deck.Stream`: the deck,
  followed by the deck the next rebuild would produce. `Deck.Remaining` is
  what is left after `n` draws. So a deal states its cards and its deck for
  every deck size, including a deck that runs out in the middle of the deal.
  `Deck.TakenFromStream` says the same of the dealer's draw loop, whose
  number of cards depends on the totals.

Where the code and the natural reading of the game differ, the model follows
the code:

- **All Aces are softened at once.** When the raw sum is above 21, the scorer
  takes 10 off for every Ace in the hand, not one Ace at a time while the
  hand is still over 21. So Ace+Ace scores 2, not 12
  (`Hands.TwoAcesScoreTwo`). `Hands.TotalVersusIterative` proves the two rules
  agree on hands with at most one Ace, and that the code's total is never
  higher otherwise.
- **Key guards only check `$pTurn`.** `$pTurn` starts true, so `d` is honoured
  before the first round: it deals the player a lone face-up card. After that,
  space no longer deals, because the player's hand is not empty
  (`Rounds.DrawBeforeFirstDeal`).
- **Bad commands are not always ignored.** In the cases listed under
  modelling decisions, the code fails instead of ignoring the command. Those
  calls are excluded by `requires` rather than modelled as a no-op.
- **A draw that does not bust leaves the choice set to draw.** Space and
  any other key leave it pending; the next `d`, `s` or `l` overwrites it
  before `playerAction` reads it (:350-357), and `nextRound` resets it (:91).
  So the invariant `Rounds.Inv` allows either no choice or draw between key
  presses (`Rounds.PendingDrawUnread`).

## Model

| member | source | states |
|---|---|---|
| `Cards.Value` | Projekt2/Blackjack.rb:29-35 | An Ace is worth 11, ranks 9..12 (10, J, Q, K) are worth 10, and every other rank r is worth r+1. Values lie in 2..11, and only the Ace is worth 11. |
| `Cards.Flip` | Projekt2/Blackjack.rb:45-47 | Turning a card over keeps its rank, suit and value and negates its orientation. |
| `Cards.Image` | Projekt2/Blackjack.rb:52-58 | A card shows the common back exactly when it lies face down; otherwise it shows the symbols of its rank and suit. |
| `Hands.Total` | Projekt2/Blackjack.rb:276-289 | The scored total never exceeds the raw sum (Aces as 11), never falls below the hard total (Aces as 1), and is at least the number of cards. |
| `Hands.HardTotalIsRawSumLessAces` | Projekt2/Blackjack.rb:278-286 | The hard total is the raw sum less 10 for each Ace, and a hand holds no more Aces than cards. |
| `Hands.TotalRegimes` | Projekt2/Blackjack.rb:281-288 | A raw sum of at most 21 is the total. Above 21 the total is the hard total, i.e. every Ace is softened. A hand without Aces scores its raw sum. |
| `Hands.TwoCardsNeverBust` | Projekt2/Blackjack.rb:276-289 | No two-card hand scores above 21, so a freshly dealt hand never forces a loss. |
| `Hands.AceAndKingMakeTwentyOne` | Projekt2/Blackjack.rb:276-289 | Ace and King score 21. |
| `Hands.ThreeAcesAndNineMakeTwelve` | Projekt2/Blackjack.rb:276-289 | Three Aces and a 9 score 12. |
| `Hands.TwoAcesScoreTwo` | Projekt2/Blackjack.rb:281-287 | Two Aces score 2 with every Ace softened at once, where softening one Ace at a time would give 12. |
| `Hands.TotalVersusIterative` | Projekt2/Blackjack.rb:281-287 | With at most one Ace, the scorer agrees with one-at-a-time softening. It never scores higher than one-at-a-time softening. |
| `Deck.RanksCount` | Projekt2/Blackjack.rb:79-83 | The nested construction loops over the first n ranks produce 4n cards: each face-down card of those ranks exactly once, and nothing else. |
| `Deck.AllRanksCount` | Projekt2/Blackjack.rb:79-83 | The construction loops over all thirteen ranks produce 52 cards: every face-down card exactly once and nothing else. |
| `Deck.CanonicalDeckCount` | Projekt2/Blackjack.rb:79-83 | The unshuffled deck holds 52 cards: every face-down (rank, suit) pair exactly once and no face-up card. |
| `Deck.Shuffle` | Projekt2/Blackjack.rb:84 | The shuffle keeps the length and the multiset of the deck. |
| `Deck.ShuffleReaches` | Projekt2/Blackjack.rb:84 | Every permutation of a sequence is the shuffle for some choice sequence. |
| `Deck.BuildDeck` | Projekt2/Blackjack.rb:78-85 | A built deck holds 52 cards and is a permutation of the canonical deck. |
| `Deck.BuildDeckCount` | Projekt2/Blackjack.rb:78-85 | Whatever the shuffle, a built deck holds every face-down card exactly once and no face-up card. |
| `Deck.BuildDeckValid` | Projekt2/Blackjack.rb:78-85 | A built deck is non-empty, all face down and free of repeats. |
| `Deck.ValidDeckWithinCanonical` | Projekt2/Blackjack.rb:78-85 | A non-empty, face-down, repeat-free deck holds no card more often than the canonical deck does. |
| `Deck.RestTwice` | Projekt2/Blackjack.rb:227-234 | Draws compose: m draws and then n more leave what m + n draws leave, and the later n draws take stream positions m to m + n. |
| `Deck.DrawCardRest` | Projekt2/Blackjack.rb:227-234 | One draw leaves the deck less its top card, continuing into the rebuilt deck when that card was the last. |
| `Deck.DrawTwice` | Projekt2/Blackjack.rb:227-234 | A second draw takes the second card of the stream, whatever hand it goes to, and two draws leave what two draws leave even across a rebuild. |
| `Deck.DrawsCompose` | Projekt2/Blackjack.rb:227-234 | After two draws the stream continues with the old third and fourth cards, and two more draws leave what four draws leave. |
| `Deck.OpenedAt` | Projekt2/Blackjack.rb:227-234 | A run of drawn cards, as they reach the hand, holds at each place the stream card at that place turned over. |
| `Deck.StreamStep` | Projekt2/Blackjack.rb:227-234 | After one draw, the stream continues with the old stream less its first card, and k more draws leave what k + 1 draws leave. |
| `Deck.DrawThenMore` | Projekt2/Blackjack.rb:227-234 | One draw onto a hand, then draws that take the next stream cards, amount to draws from the first deck: the hand gains the stream's first cards turned over, and the deck is what that many draws leave. |
| `Deck.DrawCard` | Projekt2/Blackjack.rb:227-234 | The hand gains exactly the old top card, turned over, and is otherwise unchanged. The deck loses its top card, or is replaced by a freshly built deck when that empties it, so it is never empty. Drawn from a valid deck, the new card is face up and the deck stays valid. |
| `Dealer.Policy` | Projekt2/Blackjack.rb:239-251 | Every total gets exactly one decision: draw below 17, stand on 17 to 21, bust above 21. |
| `Dealer.PolicyExamples` | Projekt2/Blackjack.rb:241-246 | The boundaries: 16 draws, 17 and 21 stand, 22 busts. |
| `Dealer.DealerDraws` | Projekt2/Blackjack.rb:258-263 | The draw loop keeps the hand as a prefix, ends with a total of at least 17 and no draw decision, and leaves a non-empty deck, valid if it was valid. It terminates because each card raises the hard total. |
| `Dealer.DealerDrawsOnlyWhileDrawing` | Projekt2/Blackjack.rb:259-262 | Each card the loop adds was drawn while the rule said draw for the hand before it. From a valid deck, every added card lies face up. |
| `Dealer.DealerDrawsOnce` | Projekt2/Blackjack.rb:259-262 | While the rule says draw, the hard total is below 17, the card drawn raises it, and the loop goes on from the hand and deck that draw leaves. |
| `Dealer.DealerDrawsFromStream` | Projekt2/Blackjack.rb:259-263 | The k cards the loop adds are the next k cards of the stream, turned over, in order, and the deck it leaves is what k draws leave, across a rebuild if there is one. |
| `Dealer.DealerDrawsBound` | Projekt2/Blackjack.rb:259-263 | The loop adds at most 17 less the hard total of the starting hand, and no card when that total is 17 or more. |
| `Dealer.FlipFirst` | Projekt2/Blackjack.rb:257 | Turning the first card over changes nothing else in the hand and keeps its total. |
| `Dealer.SameRanksSameTotal` | Projekt2/Blackjack.rb:276-289 | The total depends only on the ranks of the cards, not on their orientation or suits. |
| `Dealer.DealerPlay` | Projekt2/Blackjack.rb:256-263 | The dealer turns its hidden card over and then draws while the rule says draw. Each added card was drawn under a draw decision and, drawn from a valid deck, lies face up. The play ends on a stand or a bust with a total of at least 17, and a hand already at 17 or more takes no card. |
| `Dealer.DealerPlayFromStream` | Projekt2/Blackjack.rb:256-263 | The k cards the dealer's play adds after the cards it held are the next k cards of the stream, turned over, and the deck left is what k draws leave (`Dealer.SuffixFromStream`). |
| `Dealer.DealerPlayTaken` | Projekt2/Blackjack.rb:256-263 | The whole dealer hand after the play is the hand with its first card revealed, followed by the next k stream cards turned over, and the deck left is what k draws leave. |
| `Engine.Start` | Projekt2/Blackjack.rb:62-85 | The initial state, the globals of :62-73 after `main` calls `initializeDeck` (:365-366), has a valid 52-card deck, empty hands, the player's turn flag set, nothing pending and no points. |
| `Engine.DealerLoss` | Projekt2/Blackjack.rb:170-181 | The player gains one point, the dealer none, and both hands and both pending choices are cleared. |
| `Engine.PlayerLoss` | Projekt2/Blackjack.rb:186-196 | The dealer gains one point, the player none, and both hands and both pending choices are cleared. |
| `Engine.GameDraw` | Projekt2/Blackjack.rb:201-210 | No points change, and both hands and both pending choices are cleared. |
| `Engine.ScoreComparison` | Projekt2/Blackjack.rb:294-302 | A lower dealer total gives the player a point, a higher one gives the dealer a point, and equal totals give none. The round is cleared either way. |
| `Engine.DealerAction` | Projekt2/Blackjack.rb:256-269 | After the dealer's play, the player gains a point exactly when the dealer busts or stays below the player, and the dealer gains a point exactly when it stays at most 21 and above the player. The round is cleared, and the deck is what the dealer's k added cards leave, k draws off the stream. |
| `Engine.PlayerAction` | Projekt2/Blackjack.rb:316-338 | A hand over 21 forces a loss. With no choice, nothing changes. A loss ends the turn, clears the round and gives the dealer exactly one point. A stand ends the turn and scores by the dealer's final total against the player's. A draw adds the top card, turned over: without a bust the result is the input with exactly the new hand and the deck after the draw, and a bust is a loss that leaves that same deck. Scores never drop and gain at most one point in all; the deck stays non-empty and valid. |
| `Engine.PlayerMove` | Projekt2/Blackjack.rb:322-331 | A draw adds the top card turned over, takes the deck after the draw, and marks a bust as a loss. A stand is exactly the dealer's turn with the player's turn over, and clears the choice. Any other choice is left as it is. For callers: the scores never drop and gain at most one point in total, a pending loss leaves the scores unchanged, and the deck stays non-empty and valid. |
| `Engine.PlayerStandTakesFromStream` | Projekt2/Blackjack.rb:329-331 | On a stand, the deck `playerAction` leaves is what the dealer's k added cards leave: k draws off the stream. |
| `Engine.PlayerStandIsDealerAction` | Projekt2/Blackjack.rb:329-331 | On a stand, `playerAction` is the dealer's turn with the player's turn flag cleared. |
| `Engine.PlayerStartingHand` | Projekt2/Blackjack.rb:307-311 | The player gets the next two cards of the stream, both turned face up, and the deck is what two draws leave, rebuilt in between if it runs out. |
| `Engine.OpenTwice` | Projekt2/Blackjack.rb:307-311 | Two draws onto an empty hand take the first two stream cards, both turned over, and leave what two draws leave; from a valid deck both cards lie face up and the deck stays valid. |
| `Engine.DealerStartingHand` | Projekt2/Blackjack.rb:215-220 | The dealer gets the next two cards of the stream, the first face down and the second face up, and the deck is what two draws leave. |
| `Engine.NextRound` | Projekt2/Blackjack.rb:90-101 | The round starts with both choices reset and the player's turn set. The player gets stream cards 0 and 1 face up, the dealer card 2 face down and card 3 face up, and the deck is what four draws leave. Nothing else changes, so the scoreboard is untouched. The deck stays valid. |
| `Engine.DealTakesFour` | Projekt2/Blackjack.rb:90-101 | The player's two cards are stream cards 0 and 1 face up, the dealer's are card 2 face down and card 3 face up, and the deck is what four draws leave. |
| `Engine.HiddenThenOpen` | Projekt2/Blackjack.rb:215-220 | Turning the one drawn card back gives the top card as it lay; the next draw adds the second stream card face up; from a valid deck the first card is face down and the deck stays valid. |
| `Engine.DealKeepsValid` | Projekt2/Blackjack.rb:90-101 | From a valid deck, a deal leaves a valid deck, two open cards for the player, and a hidden then an open card for the dealer. |
| `Engine.Step` | Projekt2/Blackjack.rb:343-360 | A key press never lowers a score and adds at most one point. `d`, `s` and `l` change nothing when it is not the player's turn. Space changes nothing while the player holds cards. Every other key changes nothing. |
| `Engine.SpaceKey` | Projekt2/Blackjack.rb:345-348 | Space deals only when the player's hand is empty. |
| `Engine.PlayKey` | Projekt2/Blackjack.rb:349-358 | `d`, `s` and `l` act only on the player's turn. |
| `Rounds.StartIsBeforeFirstDeal` | Projekt2/Blackjack.rb:62-73 | The initial state satisfies the engine invariant and is in the before-first-deal phase. |
| `Rounds.SafeAfterFirstDeal` | Projekt2/Blackjack.rb:349-357 | Once a round has been dealt, no key press reaches the dealer's first card while the dealer holds no card. |
| `Rounds.SpaceDeals` | Projekt2/Blackjack.rb:90-101 | From an empty player hand, space deals a round with the scoreboard untouched. The player gets the first two stream cards face up, the dealer the third face down and the fourth face up, for every deck size. A deck of more than four cards simply loses its top four. |
| `Rounds.DrawDuringRound` | Projekt2/Blackjack.rb:322-337 | `d` in a round adds the top card face up. If the total passes 21 the round ends with one point to the dealer; otherwise the round goes on, and the only changes are the longer hand, the deck after the draw, and the choice left set to draw. |
| `Rounds.PendingDrawUnread` | Projekt2/Blackjack.rb:343-360 | A draw left pending in a round is never acted on: space and unbound keys leave the state unchanged with the draw still pending, and `d`, `s` and `l` act exactly as if nothing were pending. |
| `Rounds.ForfeitDuringRound` | Projekt2/Blackjack.rb:333-337 | `l` in a round ends it with exactly one point to the dealer and the deck untouched. |
| `Rounds.StandDuringRound` | Projekt2/Blackjack.rb:329-331 | `s` in a round ends it. The player scores if the dealer's final total is above 21 or below the player's, the dealer scores if it is higher and at most 21, and nobody scores on equal totals. |
| `Rounds.StandIsDealerTurn` | Projekt2/Blackjack.rb:329-331 | `s` in a round is exactly the dealer's turn, with the stand recorded and the player's turn over. |
| `Rounds.StandTakesFromStream` | Projekt2/Blackjack.rb:256-263 | `s` in a round leaves the dealer's two cards first, the hidden one turned over, then the next k stream cards turned over, and leaves the deck that k draws leave. |
| `Rounds.StepKeepsInv` | Projekt2/Blackjack.rb:343-360 | Every key press the program survives keeps the engine invariant: the deck is valid and the game is between rounds, in a round, or before the first deal. |
| `Rounds.AfterFirstDealStays` | Projekt2/Blackjack.rb:343-360 | From between rounds or in a round, every key press the program survives leads between rounds or into a round, never back to before the first deal. |
| `Rounds.DeckWithinCanonical` | Projekt2/Blackjack.rb:227-234 | The deck in play never holds more than 52 cards, nor any card more often than the canonical deck. |
| `Rounds.DrawBeforeFirstDeal` | Projekt2/Blackjack.rb:349-351 | `d` before the first deal adds an open card to the player's hand and stays in that phase, after which space no longer deals. |

## Left out

- Drawing (`updateBoard`, `Rectangle`, `Text`, `Image`, `clear`, `show`) and the outcome banners: they only render. Their one engine effect, refreshing `$dHandValue`, is replaced by computing the total on demand.
- The `on :key_down` event loop and `main`: key presses are inputs to `Engine.Step`, and the initial state is `Engine.Start`.
- The randomness of `Array#shuffle`: the permutation is a parameter, and no claim is made about its distribution.
- The file-name formatting of `image_path`: `Cards.Image` keeps only the choice between the card back and the rank and suit symbols.
- `$pHandValue` and `$dHandValue` as stored state: they are caches of the hand totals.
- Engine.Step: the calls on which the program fails (`s` or `l` before the first deal, a busting `d` before it) are excluded by a `requires` instead of being modelled, since the program has no defined result for them.
- Engine.PlayerAction: the same failing calls are excluded by its `requires` on a non-empty dealer hand.
- Dealer.DealerPlay: requires a non-empty hand and deck, as the code fails on an empty dealer hand and the deck is never empty between draws.
