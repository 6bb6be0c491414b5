/** Blackjack cards: ranks, suits, the 52-card deck and the value of a
    list of cards. */
module BlackjackCards {
  import opened SeqUtil

  datatype Rank = Ace | Two | Three | Four | Five | Six | Seven | Eight | Nine | Ten | Jack | Queen | King

  /** Suits only label cards; no rule looks at them. */
  datatype Suit = Hearts | Diamonds | Clubs | Spades

  datatype Card = Card(rank: Rank, suit: Suit)

  /** The value a card adds to `min_total`: an ace counts 1, a face card
      10, a numeral its face value. */
  function RankValue(r: Rank): (v: nat)
    ensures 1 <= v <= 10
    ensures v == 1 <==> r == Ace
    ensures v == 10 <==> r in {Ten, Jack, Queen, King}
  {
    match r
    case Ace => 1
    case Two => 2
    case Three => 3
    case Four => 4
    case Five => 5
    case Six => 6
    case Seven => 7
    case Eight => 8
    case Nine => 9
    case Ten => 10
    case Jack => 10
    case Queen => 10
    case King => 10
  }

  // ---------------------------------------------------------------------
  // Valuation: min_total, max_total, best_value

  /** `min_total`: every ace counted as 1. */
  function MinTotal(cards: seq<Card>): nat {
    if cards == [] then 0 else MinTotal(cards[..|cards| - 1]) + RankValue(cards[|cards| - 1].rank)
  }

  predicate HasAce(cards: seq<Card>) {
    exists i :: 0 <= i < |cards| && cards[i].rank == Ace
  }

  /** `max_total`: a single ace raised to 11, however many aces there are. */
  function MaxTotal(cards: seq<Card>): nat {
    if HasAce(cards) then MinTotal(cards) + 10 else MinTotal(cards)
  }

  /** `best_value`: the higher total when it does not pass 21. */
  function BestValue(cards: seq<Card>): nat {
    if MaxTotal(cards) <= 21 then MaxTotal(cards) else MinTotal(cards)
  }

  /** The lower total of a concatenation is the sum of the lower totals. */
  lemma {:induction false} MinTotalAppend(a: seq<Card>, b: seq<Card>)
    ensures MinTotal(a + b) == MinTotal(a) + MinTotal(b)
    decreases |b|
  {
    if b == [] {
      assert a + b == a;
    } else {
      var b' := b[..|b| - 1];
      assert (a + b)[..|a + b| - 1] == a + b';
      MinTotalAppend(a, b');
    }
  }

  /** Each card adds between 1 and 10 to the lower total. */
  lemma {:induction false} MinTotalBounds(cards: seq<Card>)
    ensures |cards| <= MinTotal(cards) <= 10 * |cards|
  {
    if cards != [] {
      MinTotalBounds(cards[..|cards| - 1]);
    }
  }

  /** `best_value` is one of the two totals, at least the lower one; it
      passes 21 exactly when the lower total does, and is then the lower
      total. */
  lemma BestValueFacts(cards: seq<Card>)
    ensures BestValue(cards) == MinTotal(cards) || BestValue(cards) == MinTotal(cards) + 10
    ensures MinTotal(cards) <= BestValue(cards) <= MaxTotal(cards)
    ensures BestValue(cards) > 21 <==> MinTotal(cards) > 21
    ensures BestValue(cards) > 21 ==> BestValue(cards) == MinTotal(cards)
    ensures BestValue(cards) == MinTotal(cards) + 10 <==> HasAce(cards) && MinTotal(cards) <= 11
  {
  }

  /** Adding a card never lowers the lower total, and raises it by the
      card's value. */
  lemma MinTotalSnoc(cards: seq<Card>, c: Card)
    ensures MinTotal(cards + [c]) == MinTotal(cards) + RankValue(c.rank)
  {
    assert (cards + [c])[..|cards|] == cards;
  }

  /** Two cards make 21 exactly when one is an ace and the other a
      ten-valued card. */
  lemma TwoCardTwentyOne(c1: Card, c2: Card)
    ensures BestValue([c1, c2]) == 21 <==>
      (c1.rank == Ace && RankValue(c2.rank) == 10) || (c2.rank == Ace && RankValue(c1.rank) == 10)
  {
    MinTotalSnoc([], c1);
    MinTotalSnoc([c1], c2);
    assert [] + [c1] == [c1] && [c1] + [c2] == [c1, c2];
    assert HasAce([c1, c2]) <==> c1.rank == Ace || c2.rank == Ace by {
      if c1.rank == Ace { assert [c1, c2][0].rank == Ace; }
      if c2.rank == Ace { assert [c1, c2][1].rank == Ace; }
    }
  }

  /** The ranks of a hand, `Hand.ranks`. */
  function Ranks(cards: seq<Card>): (rs: seq<Rank>)
    ensures |rs| == |cards| && forall i :: 0 <= i < |cards| ==> rs[i] == cards[i].rank
  {
    seq(|cards|, i requires 0 <= i < |cards| => cards[i].rank)
  }

  // ---------------------------------------------------------------------
  // The deck: `_deck`, rank by rank in the order A, 2, ..., K, each in
  // four suits.

  const AllRanks: seq<Rank> := [Ace, Two, Three, Four, Five, Six, Seven, Eight, Nine, Ten, Jack, Queen, King]
  const AllSuits: seq<Suit> := [Hearts, Diamonds, Clubs, Spades]

  /** Position of a rank in `AllRanks`. */
  function RankIndex(r: Rank): (i: nat)
    ensures i < 13 && AllRanks[i] == r
  {
    match r
    case Ace => 0 case Two => 1 case Three => 2 case Four => 3 case Five => 4 case Six => 5
    case Seven => 6 case Eight => 7 case Nine => 8 case Ten => 9 case Jack => 10 case Queen => 11
    case King => 12
  }

  /** Position of a suit in `AllSuits`. */
  function SuitIndex(s: Suit): (i: nat)
    ensures i < 4 && AllSuits[i] == s
  {
    match s
    case Hearts => 0 case Diamonds => 1 case Clubs => 2 case Spades => 3
  }

  /** `product(_ranks, _suits)`: rank by rank, each in the four suits. */
  function Deck(): (d: seq<Card>)
    ensures |d| == 52
  {
    seq(52, i requires 0 <= i < 52 => Card(AllRanks[i / 4], AllSuits[i % 4]))
  }

  /** Each of the 52 cards sits at one position of the deck only. */
  lemma DeckDistinct()
    ensures Distinct(Deck())
  {
    forall i, j | 0 <= i < j < 52 ensures Deck()[i] != Deck()[j] {
      var ri, rj := AllRanks[i / 4], AllRanks[j / 4];
      var si, sj := AllSuits[i % 4], AllSuits[j % 4];
      assert RankIndex(ri) == i / 4 by { RanksDistinct(i / 4); }
      assert RankIndex(rj) == j / 4 by { RanksDistinct(j / 4); }
      assert SuitIndex(si) == i % 4 by { SuitsDistinct(i % 4); }
      assert SuitIndex(sj) == j % 4 by { SuitsDistinct(j % 4); }
    }
  }

  lemma RanksDistinct(i: nat)
    requires i < 13
    ensures RankIndex(AllRanks[i]) == i
  {
  }

  lemma SuitsDistinct(i: nat)
    requires i < 4
    ensures SuitIndex(AllSuits[i]) == i
  {
  }

  /** Every rank-by-suit card is in the deck. */
  lemma DeckComplete(c: Card)
    ensures c in Deck()
  {
    var k := 4 * RankIndex(c.rank) + SuitIndex(c.suit);
    assert k / 4 == RankIndex(c.rank) && k % 4 == SuitIndex(c.suit);
    assert Deck()[k] == c;
  }

  /** Every one of the 52 rank-by-suit cards occurs in the deck exactly once. */
  lemma DeckHasEachCardOnce(c: Card)
    ensures multiset(Deck())[c] == 1
  {
    DeckDistinct();
    DeckComplete(c);
    DistinctMultiset(Deck());
  }

  /** The pile of `num_decks` decks, as a multiset of cards. */
  function FullPile(numDecks: nat): multiset<Card> {
    if numDecks == 0 then multiset{} else FullPile(numDecks - 1) + multiset(Deck())
  }

  /** A full pile holds each card `num_decks` times, `52 * num_decks` cards
      in all. */
  lemma {:induction false} FullPileCount(numDecks: nat, c: Card)
    ensures FullPile(numDecks)[c] == numDecks
    ensures |FullPile(numDecks)| == 52 * numDecks
  {
    if numDecks > 0 {
      FullPileCount(numDecks - 1, c);
      DeckHasEachCardOnce(c);
    }
  }
}
