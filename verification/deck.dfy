/** The deck: the 52 canonical cards built face down, a shuffle, and drawing
    from the top with an automatic rebuild when a draw empties the deck. */
module Deck {
  import opened Cards

  /** A hand together with the deck it was dealt from. */
  datatype Dealt = Dealt(hand: seq<Card>, deck: seq<Card>)

  /** The four face-down cards of one rank, in suit order (the inner loop). */
  function SuitsOf(r: Rank): seq<Card>
  {
    [Card(r, 0, true), Card(r, 1, true), Card(r, 2, true), Card(r, 3, true)]
  }

  /** The face-down cards of the first `n` ranks, rank by rank (the outer loop). */
  function Ranks(n: nat): seq<Card>
    requires n <= 13
  {
    if n == 0 then [] else Ranks(n - 1) + SuitsOf(n - 1)
  }

  /** The deck in construction order, before the shuffle: one block of four
      suits per rank symbol. */
  function CanonicalDeck(): seq<Card>
  {
    Ranks(|RankSymbols|)
  }

  lemma SuitsOfCount(r: Rank)
    ensures forall c :: multiset(SuitsOf(r))[c] == (if c.flipped && c.rank == r then 1 else 0)
  {
    forall c ensures multiset(SuitsOf(r))[c] == (if c.flipped && c.rank == r then 1 else 0) {
      var a, b, d, e := Card(r, 0, true), Card(r, 1, true), Card(r, 2, true), Card(r, 3, true);
      assert multiset(SuitsOf(r)) == multiset{a, b, d, e};
      if c.flipped && c.rank == r {
        assert c == a || c == b || c == d || c == e;
      }
    }
  }

  /** The first `n` ranks hold each face-down card of those ranks exactly
      once, and nothing else. */
  lemma {:induction false} RanksCount(n: nat)
    requires n <= 13
    ensures |Ranks(n)| == 4 * n
    ensures forall c :: multiset(Ranks(n))[c] == (if c.flipped && c.rank < n then 1 else 0)
  {
    if n > 0 {
      RanksCount(n - 1);
      SuitsOfCount(n - 1);
      assert multiset(Ranks(n)) == multiset(Ranks(n - 1)) + multiset(SuitsOf(n - 1));
    }
  }

  lemma CanonicalDeckCount()
    ensures |CanonicalDeck()| == 52
    ensures forall c :: multiset(CanonicalDeck())[c] == (if c.flipped then 1 else 0)
  {
    AllRanksCount(|RankSymbols|);
  }

  /** All thirteen ranks hold every face-down card exactly once. */
  lemma AllRanksCount(n: nat)
    requires n == 13
    ensures |Ranks(n)| == 52
    ensures forall c :: multiset(Ranks(n))[c] == (if c.flipped then 1 else 0)
  {
    RanksCount(n);
  }

  /** A permutation of `s` selected by `choices`: the element at index
      `choices[0] % |s|` goes first and the rest is shuffled by the remaining
      choices (missing choices read as 0). */
  function Shuffle<T>(s: seq<T>, choices: seq<nat>): (r: seq<T>)
    ensures multiset(r) == multiset(s)
    ensures |r| == |s|
    decreases |s|
  {
    if |s| == 0 then []
    else
      var k := FirstChoice(choices) % |s|;
      var rest := s[..k] + s[k + 1..];
      RemoveAt(s, k);
      [s[k]] + Shuffle(rest, LaterChoices(choices))
  }

  /** The next choice, 0 once the choices run out. */
  function FirstChoice(choices: seq<nat>): nat
  {
    if |choices| > 0 then choices[0] else 0
  }

  function LaterChoices(choices: seq<nat>): seq<nat>
  {
    if |choices| > 0 then choices[1..] else []
  }

  /** Every permutation of `s` is the shuffle of some choice sequence, so the
      parameter leaves the order entirely open. */
  lemma {:induction false} ShuffleReaches<T>(s: seq<T>, t: seq<T>) returns (choices: seq<nat>)
    requires multiset(t) == multiset(s)
    ensures Shuffle(s, choices) == t
    decreases |s|
  {
    if |s| == 0 {
      assert |t| == |multiset(t)| == 0;
      choices := [];
    } else {
      var k := MatchFirst(s, t);
      var more := ShuffleReaches(s[..k] + s[k + 1..], t[1..]);
      choices := [k] + more;
      ShuffleStep(s, k, more);
      assert [t[0]] + t[1..] == t;
    }
  }

  /** Finds where the first element of a permutation `t` of `s` sits in `s`. */
  lemma MatchFirst<T>(s: seq<T>, t: seq<T>) returns (k: nat)
    requires multiset(t) == multiset(s) && |s| > 0
    ensures k < |s| && |t| > 0 && s[k] == t[0]
    ensures multiset(s[..k] + s[k + 1..]) == multiset(t[1..])
  {
    assert |t| == |multiset(t)| == |s|;
    assert t[0] in multiset(s);
    k := IndexOf(s, t[0]);
    RemoveAt(s, k);
    RemoveFirst(t);
  }

  lemma RemoveFirst<T>(t: seq<T>)
    requires |t| > 0
    ensures multiset(t[1..]) == multiset(t) - multiset{t[0]}
  {
    assert t == [t[0]] + t[1..];
  }

  /** A position at which `x` occurs in `s`. */
  lemma IndexOf<T>(s: seq<T>, x: T) returns (k: nat)
    requires x in multiset(s)
    ensures k < |s| && s[k] == x
  {
    assert x in s;
    k :| 0 <= k < |s| && s[k] == x;
  }

  lemma ShuffleStep<T>(s: seq<T>, k: nat, more: seq<nat>)
    requires k < |s|
    ensures Shuffle(s, [k] + more) == [s[k]] + Shuffle(s[..k] + s[k + 1..], more)
  {
    var choices := [k] + more;
    assert FirstChoice(choices) == k && LaterChoices(choices) == more;
    SmallModulus(k, |s|);
  }

  lemma SmallModulus(k: nat, n: nat)
    requires k < n
    ensures k % n == k
  {
  }

  lemma RemoveAt<T>(s: seq<T>, k: nat)
    requires k < |s|
    ensures multiset(s[..k] + s[k + 1..]) == multiset(s) - multiset{s[k]}
  {
    assert s == s[..k] + [s[k]] + s[k + 1..];
    assert multiset(s) == multiset(s[..k]) + multiset{s[k]} + multiset(s[k + 1..]);
  }

  /** A freshly built deck (`initializeDeck`): the canonical cards in the
      order the shuffle choices select. It holds 52 cards: every face-down
      card exactly once, and no face-up card. */
  function BuildDeck(choices: seq<nat>): (d: seq<Card>)
    ensures |d| == 52
    ensures multiset(d) == multiset(CanonicalDeck())
  {
    CanonicalDeckCount();
    Shuffle(CanonicalDeck(), choices)
  }

  /** Whatever the shuffle choices, a built deck holds every face-down card
      exactly once and no face-up card. */
  lemma BuildDeckCount(choices: seq<nat>)
    ensures forall c :: multiset(BuildDeck(choices))[c] == (if c.flipped then 1 else 0)
  {
    CanonicalDeckCount();
  }

  /** A deck that can be drawn from: non-empty, every card face down, no card
      twice. */
  predicate ValidDeck(d: seq<Card>)
  {
    && |d| > 0
    && (forall i | 0 <= i < |d| :: d[i].flipped)
    && (forall i, j | 0 <= i < j < |d| :: d[i] != d[j])
  }

  /** A valid deck is part of one canonical deck: it holds no card more often
      than the canonical deck does. */
  lemma ValidDeckWithinCanonical(d: seq<Card>)
    requires ValidDeck(d)
    ensures multiset(d) <= multiset(CanonicalDeck())
  {
    CanonicalDeckCount();
    forall c ensures multiset(d)[c] <= multiset(CanonicalDeck())[c] {
      DistinctCount(d, c);
      if c in d {
        var i :| 0 <= i < |d| && d[i] == c;
      }
    }
  }

  /** In a sequence without repeats every element is counted once. */
  lemma {:induction false} DistinctCount<T>(s: seq<T>, x: T)
    requires forall i, j | 0 <= i < j < |s| :: s[i] != s[j]
    ensures multiset(s)[x] == (if x in s then 1 else 0)
  {
    if |s| > 0 {
      var init := s[..|s| - 1];
      DistinctCount(init, x);
      assert s == init + [s[|s| - 1]];
    }
  }

  /** A freshly built deck is valid. */
  lemma BuildDeckValid(choices: seq<nat>)
    ensures ValidDeck(BuildDeck(choices))
  {
    BuildDeckCount(choices);
    var d := BuildDeck(choices);
    forall i | 0 <= i < |d| ensures d[i].flipped {
      assert d[i] in multiset(d);
    }
    forall i, j | 0 <= i < j < |d| ensures d[i] != d[j] {
      if d[i] == d[j] {
        TwiceCounted(d, i, j);
      }
    }
  }

  lemma TailValid(deck: seq<Card>)
    requires |deck| > 0
    ensures ValidDeck(deck) ==> deck[0].flipped
    ensures ValidDeck(deck) && |deck| > 1 ==> ValidDeck(deck[1..])
  {
    if ValidDeck(deck) {
      var rest := deck[1..];
      forall i, j | 0 <= i < j < |rest| ensures rest[i] != rest[j] {
        assert rest[i] == deck[i + 1] && rest[j] == deck[j + 1];
      }
    }
  }

  lemma TwiceCounted<T>(s: seq<T>, i: nat, j: nat)
    requires i < j < |s| && s[i] == s[j]
    ensures multiset(s)[s[i]] >= 2
  {
    assert s == s[..j] + [s[j]] + s[j + 1..];
    assert s[i] in s[..j];
  }

  /** What is left of `deck` after `n` draws when an emptied deck is at once
      replaced by `refill`: the draws take `deck`, then `refill`, in order. */
  function Rest<T>(deck: seq<T>, refill: seq<T>, n: nat): (r: seq<T>)
    requires n < |deck| + |refill|
    ensures |r| > 0
  {
    if n < |deck| then deck[n..] else (deck + refill)[n..]
  }

  /** Draws compose: `m` draws followed by `n` more leave what `m + n` draws
      leave, and the `n` later draws take the cards at positions `m` to
      `m + n` of the whole sequence of draws. */
  lemma RestTwice<T>(deck: seq<T>, refill: seq<T>, m: nat, n: nat)
    requires m + n < |deck| + |refill|
    ensures n < |Rest(deck, refill, m)| + |refill|
    ensures Rest(Rest(deck, refill, m), refill, n) == Rest(deck, refill, m + n)
    ensures (Rest(deck, refill, m) + refill)[..n] == (deck + refill)[m..m + n]
  {
    var mid := Rest(deck, refill, m);
    if m < |deck| {
      assert mid + refill == (deck + refill)[m..];
    } else {
      assert (mid + refill)[..n] == mid[..n];
    }
  }

  /** Once `deck` is exhausted the draws run on into `refill`. */
  lemma RestCases<T>(deck: seq<T>, refill: seq<T>, n: nat)
    requires n < |deck| + |refill|
    ensures n < |deck| ==> Rest(deck, refill, n) == deck[n..]
    ensures |deck| <= n ==> Rest(deck, refill, n) == refill[n - |deck|..]
  {
  }

  /** `drawCards`: the top card is turned over and appended to the hand;
      when that empties the deck, a new deck is built from `choices`, so the
      deck is never left empty. */
  function DrawCard(hand: seq<Card>, deck: seq<Card>, choices: seq<nat>): (r: Dealt)
    requires |deck| > 0
    ensures r.hand == hand + [Flip(deck[0])]
    ensures |deck| > 1 ==> r.deck == deck[1..]
    ensures |deck| == 1 ==> r.deck == BuildDeck(choices)
    ensures |r.deck| > 0
    ensures ValidDeck(deck) ==> ValidDeck(r.deck) && !r.hand[|hand|].flipped
  {
    BuildDeckValid(choices);
    TailValid(deck);
    var rest := deck[1..];
    Dealt(hand + [Flip(deck[0])], if |rest| == 0 then BuildDeck(choices) else rest)
  }

  /** One draw leaves the deck less one card, run on into the rebuilt deck. */
  lemma DrawCardRest(hand: seq<Card>, deck: seq<Card>, choices: seq<nat>)
    requires |deck| > 0
    ensures DrawCard(hand, deck, choices).deck == Rest(deck, BuildDeck(choices), 1)
  {
    var b := BuildDeck(choices);
    if |deck| == 1 {
      assert (deck + b)[1..] == b;
    }
  }

  /** The cards `drawCards` takes from `deck`, in order: the deck itself,
      then the deck it builds from `choices` when it runs out. */
  function Stream(deck: seq<Card>, choices: seq<nat>): seq<Card>
  {
    deck + BuildDeck(choices)
  }

  /** What is left of `deck` after `n` draws. */
  function Remaining(deck: seq<Card>, n: nat, choices: seq<nat>): seq<Card>
    requires n < |Stream(deck, choices)|
  {
    Rest(deck, BuildDeck(choices), n)
  }

  /** Two draws in a row, onto whatever hand: the second takes the second
      card of the stream, and together they leave what two draws leave,
      rebuilding the deck in between when the first draw empties it. */
  lemma DrawTwice(first: seq<Card>, second: seq<Card>, deck: seq<Card>, choices: seq<nat>)
    requires |deck| > 0
    ensures
      var d := DrawCard(first, deck, choices);
      var e := DrawCard(second, d.deck, choices);
      && e.hand == second + [Flip(Stream(deck, choices)[1])]
      && e.deck == Remaining(deck, 2, choices)
  {
    var b := BuildDeck(choices);
    var d := DrawCard(first, deck, choices);
    DrawCardRest(first, deck, choices);
    DrawCardRest(second, d.deck, choices);
    RestTwice(deck, b, 1, 1);
    assert d.deck[0] == (d.deck + b)[..1][0];
  }

  /** After two draws the stream goes on with the third and fourth cards of
      the old one, and two more draws leave what four draws leave. */
  lemma DrawsCompose(deck: seq<Card>, choices: seq<nat>)
    requires |deck| > 0
    ensures
      var rest := Remaining(deck, 2, choices);
      var s, t := Stream(deck, choices), Stream(rest, choices);
      && |rest| > 0 && t[0] == s[2] && t[1] == s[3]
      && Remaining(rest, 2, choices) == Remaining(deck, 4, choices)
  {
    var b := BuildDeck(choices);
    RestTwice(deck, b, 2, 2);
    var rest := Rest(deck, b, 2);
    assert (rest + b)[..2][0] == (rest + b)[0];
    assert (rest + b)[..2][1] == (rest + b)[1];
  }

  /** The cards of `s`, each turned over, as `drawCards` leaves them. */
  function Opened(s: seq<Card>): (r: seq<Card>)
    ensures |r| == |s|
  {
    if |s| == 0 then [] else [Flip(s[0])] + Opened(s[1..])
  }

  /** Each opened card is the card at the same place, turned over. */
  lemma {:induction false} OpenedAt(s: seq<Card>, i: nat)
    requires i < |s|
    ensures Opened(s)[i] == Flip(s[i])
  {
    if i > 0 {
      OpenedAt(s[1..], i - 1);
    }
  }

  /** One draw followed by `k` more: the later draws take stream cards 1 to
      `k` and leave what `k + 1` draws leave. */
  lemma StreamStep(deck: seq<Card>, k: nat, choices: seq<nat>)
    requires |deck| > 0 && k + 1 < |Stream(deck, choices)|
    ensures
      var rest := Remaining(deck, 1, choices);
      var s, t := Stream(deck, choices), Stream(rest, choices);
      && k < |t| && t[..k] == s[1..k + 1]
      && Remaining(rest, k, choices) == Remaining(deck, k + 1, choices)
  {
    RestTwice(deck, BuildDeck(choices), 1, k);
  }

  /** Opening a run of cards opens its first card, then the rest. */
  lemma OpenedStep(s: seq<Card>, k: nat)
    requires k < |s|
    ensures Opened(s[..k + 1]) == [Flip(s[0])] + Opened(s[1..k + 1])
  {
    assert s[..k + 1][1..] == s[1..k + 1];
  }

  /** `r` is what `k` draws onto `hand` from `deck` leave, where `k` is the
      number of cards `r` adds to the hand: the next `k` cards of the stream,
      turned over, follow `hand`, and the deck is what `k` draws leave. */
  predicate TakenFromStream(hand: seq<Card>, deck: seq<Card>, choices: seq<nat>, r: Dealt)
  {
    && |hand| <= |r.hand|
    && |r.hand| - |hand| < |Stream(deck, choices)|
    && r.hand == hand + Opened(Stream(deck, choices)[..|r.hand| - |hand|])
    && r.deck == Remaining(deck, |r.hand| - |hand|, choices)
  }

  /** A draw onto `hand` that leaves `first`, followed by more draws that
      leave `last`, amounts to one draw more onto `hand`. */
  lemma DrawThenMore(hand: seq<Card>, deck: seq<Card>, choices: seq<nat>, first: Dealt, last: Dealt)
    requires |deck| > 0 && |last.hand| - |hand| < |Stream(deck, choices)|
    requires first.hand == hand + [Flip(deck[0])] && first.deck == Remaining(deck, 1, choices)
    requires TakenFromStream(first.hand, first.deck, choices, last)
    ensures TakenFromStream(hand, deck, choices, last)
  {
    var k := |last.hand| - |first.hand|;
    var s, t := Stream(deck, choices), Stream(first.deck, choices);
    StreamStep(deck, k, choices);
    OpenedStep(s, k);
    assert deck[0] == s[0];
    assert t[..k] == s[1..k + 1];
    AppendAssoc(hand, [Flip(s[0])], Opened(s[1..k + 1]));
  }

  lemma AppendAssoc<T>(a: seq<T>, b: seq<T>, c: seq<T>)
    ensures (a + b) + c == a + (b + c)
  {
  }

}
