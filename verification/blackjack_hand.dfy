/** The blackjack draw pile and hands, the two objects the game changes in
    place. */
module BlackjackHand {
  import opened Wrappers
  import opened BlackjackCards

  // ---------------------------------------------------------------------
  // DrawPile

  /** `random.sample` refuses to draw more cards than the pile holds. */
  datatype DrawError = SampleLargerThanPopulation

  /** `max(num_cards, 1)`: at least one card is always drawn. */
  function DrawCount(numCards: int): (k: nat)
    ensures k >= 1 && k >= numCards
    ensures numCards >= 1 ==> k == numCards
  {
    if numCards > 1 then numCards else 1
  }

  /** The pile as a multiset of cards (the source keeps a count per card).
      Which cards a draw yields is left open: any cards actually present. */
  class DrawPile {
    const numDecks: nat
    var pile: multiset<Card>

    /** The pile never holds more of a card than the full pile does. */
    ghost predicate Valid() reads this {
      pile <= FullPile(numDecks)
    }

    constructor (numDecks: nat)
      ensures this.numDecks == numDecks && pile == FullPile(numDecks)
      ensures Valid()
    {
      this.numDecks := numDecks;
      pile := FullPile(numDecks);
    }

    /** `draw`: removes `max(num_cards, 1)` cards present in the pile and
        returns them; asking for more than the pile holds is an error that
        leaves the pile as it was. */
    method Draw(numCards: int) returns (r: Result<seq<Card>, DrawError>)
      requires Valid()
      modifies this
      ensures Valid()
      ensures DrawCount(numCards) > |old(pile)| ==> r == Err(SampleLargerThanPopulation) && pile == old(pile)
      ensures DrawCount(numCards) <= |old(pile)| ==>
        && r.Ok? && |r.value| == DrawCount(numCards)
        && old(pile) == pile + multiset(r.value)
    {
      var k := DrawCount(numCards);
      if k > |pile| {
        return Err(SampleLargerThanPopulation);
      }
      var cards: seq<Card> := [];
      while |cards| < k
        invariant |cards| <= k
        invariant multiset(cards) + pile == old(pile)
      {
        var c :| c in pile;
        cards := cards + [c];
        pile := pile - multiset{c};
      }
      return Ok(cards);
    }

    /** `recompose`: every card back, `num_decks` of each. */
    method Recompose()
      modifies this
      ensures pile == FullPile(numDecks) && Valid()
    {
      pile := FullPile(numDecks);
    }
  }

  // ---------------------------------------------------------------------
  // Hand: its state as a value and the rules that change it

  datatype HandView = HandView(
    cards: seq<Card>,
    bet: int,
    closed: bool,
    surrendered: bool,
    busted: bool,
    blackjack: bool,
    twentyone: bool)

  /** `_check_hand`: 21 marks the hand twenty-one and closes it; otherwise a
      lower total above 21 marks it busted and closes it. */
  function Checked(v: HandView): HandView {
    if BestValue(v.cards) == 21 then v.(twentyone := true, closed := true)
    else if MinTotal(v.cards) > 21 then v.(busted := true, closed := true)
    else v
  }

  /** A hand as the constructor leaves it. */
  function NewHand(cards: seq<Card>, bet: int): HandView {
    Checked(HandView(cards, bet, false, false, false, false, false))
  }

  /** `add_card`. */
  function WithCard(v: HandView, c: Card): HandView {
    Checked(v.(cards := v.cards + [c]))
  }

  /** Several `add_card` calls in a row. */
  function WithCards(v: HandView, cs: seq<Card>): HandView {
    if cs == [] then v else WithCard(WithCards(v, cs[..|cs| - 1]), cs[|cs| - 1])
  }

  /** `cards[:-1]` and `cards[-1:]`, which are both empty for no cards. */
  function Init(cards: seq<Card>): seq<Card> {
    if cards == [] then [] else cards[..|cards| - 1]
  }

  function Last(cards: seq<Card>): seq<Card> {
    if cards == [] then [] else cards[|cards| - 1..]
  }

  /** No flag is ever cleared. */
  predicate FlagsKept(v: HandView, w: HandView) {
    && (v.closed ==> w.closed)
    && (v.surrendered ==> w.surrendered)
    && (v.busted ==> w.busted)
    && (v.blackjack ==> w.blackjack)
    && (v.twentyone ==> w.twentyone)
  }

  /** What every hand satisfies: twenty-one, busted and surrendered hands
      are closed. */
  predicate Consistent(v: HandView) {
    (v.twentyone || v.busted || v.surrendered) ==> v.closed
  }

  /** `_check_hand` keeps cards and bet, clears no flag, sets the
      twenty-one or busted flag (and closes) exactly as the totals say, and
      keeps the hand consistent. */
  lemma CheckedFacts(v: HandView)
    ensures Checked(v).cards == v.cards && Checked(v).bet == v.bet
    ensures FlagsKept(v, Checked(v))
    ensures BestValue(v.cards) == 21 ==> Checked(v).twentyone && Checked(v).closed
    ensures MinTotal(v.cards) > 21 ==> Checked(v).busted && Checked(v).closed
    ensures Checked(v).twentyone != v.twentyone ==> BestValue(v.cards) == 21
    ensures Checked(v).busted != v.busted ==> MinTotal(v.cards) > 21
    ensures Consistent(v) ==> Consistent(Checked(v))
    ensures Checked(Checked(v)) == Checked(v)
  {
    BestValueFacts(v.cards);
  }

  /** A new hand is twenty-one exactly when its best value is 21, busted
      exactly when its lower total passes 21, and closed exactly when it is
      one of the two. */
  lemma NewHandFlags(cards: seq<Card>, bet: int)
    ensures var h := NewHand(cards, bet);
      && h.cards == cards && h.bet == bet
      && (h.twentyone <==> BestValue(cards) == 21)
      && (h.busted <==> MinTotal(cards) > 21)
      && (h.closed <==> h.twentyone || h.busted)
      && !h.surrendered && !h.blackjack
      && Consistent(h)
  {
    BestValueFacts(cards);
  }

  /** Adding cards appends them to the hand and clears no flag. */
  lemma {:induction false} WithCardsFacts(v: HandView, cs: seq<Card>)
    ensures WithCards(v, cs).cards == v.cards + cs
    ensures WithCards(v, cs).bet == v.bet
    ensures FlagsKept(v, WithCards(v, cs))
    ensures Consistent(v) ==> Consistent(WithCards(v, cs))
  {
    if cs != [] {
      var init := cs[..|cs| - 1];
      WithCardsFacts(v, init);
      var w := WithCards(v, init);
      CheckedFacts(w.(cards := w.cards + [cs[|cs| - 1]]));
      assert init + [cs[|cs| - 1]] == cs;
    }
  }

  lemma WithCardsSnoc(v: HandView, cs: seq<Card>, c: Card)
    ensures WithCards(v, cs + [c]) == WithCard(WithCards(v, cs), c)
  {
    assert (cs + [c])[..|cs|] == cs;
  }

  /** Once busted a hand stays busted whatever it is dealt, and so does a
      twenty-one hand stay twenty-one. */
  lemma BustedStaysBusted(v: HandView, cs: seq<Card>)
    requires Consistent(v) && (v.busted || v.twentyone)
    ensures v.busted ==> WithCards(v, cs).busted && WithCards(v, cs).closed
    ensures v.twentyone ==> WithCards(v, cs).twentyone && WithCards(v, cs).closed
  {
    WithCardsFacts(v, cs);
  }

  /** A split hand's two parts put back together are the original cards. */
  lemma InitLast(cards: seq<Card>)
    ensures Init(cards) + Last(cards) == cards
    ensures |Last(cards)| == if cards == [] then 0 else 1
  {
  }

  /** A hand. */
  class Hand {
    var cards: seq<Card>
    var bet: int
    var closed: bool
    var surrendered: bool
    var busted: bool
    var blackjack: bool
    var twentyone: bool

    function View(): HandView reads this {
      HandView(cards, bet, closed, surrendered, busted, blackjack, twentyone)
    }

    constructor (cards: seq<Card>, bet: int)
      ensures View() == NewHand(cards, bet)
    {
      this.cards := cards;
      this.bet := bet;
      closed, surrendered, busted, blackjack, twentyone := false, false, false, false, false;
      new;
      CheckHand();
    }

    /** `_check_hand`. */
    method CheckHand()
      modifies this
      ensures View() == Checked(old(View()))
    {
      if BestValue(cards) == 21 {
        twentyone := true;
        closed := true;
      } else if MinTotal(cards) > 21 {
        busted := true;
        closed := true;
      }
    }

    /** `add_card`: append, then re-check the totals. */
    method AddCard(c: Card)
      modifies this
      ensures View() == WithCard(old(View()), c)
    {
      cards := cards + [c];
      CheckHand();
    }

    /** `double`: the bet is doubled and nothing else happens (no card is
        drawn and the hand stays open). */
    method Double()
      modifies this
      ensures View() == old(View()).(bet := 2 * old(bet))
    {
      bet := bet * 2;
    }

    /** `split`: the last card (if any) moves to a new hand with the given
        bet; this hand keeps the others and is not re-checked. */
    method Split(bet: int) returns (other: Hand)
      modifies this
      ensures fresh(other)
      ensures View() == old(View()).(cards := Init(old(cards)))
      ensures other.View() == NewHand(Last(old(cards)), bet)
    {
      var otherCards := Last(cards);
      cards := Init(cards);
      other := new Hand(otherCards, bet);
    }

    method Close()
      modifies this
      ensures View() == old(View()).(closed := true)
    {
      closed := true;
    }

    method Surrender()
      modifies this
      ensures View() == old(View()).(closed := true, surrendered := true)
    {
      closed := true;
      surrendered := true;
    }

    method SetAsBlackjack()
      modifies this
      ensures View() == old(View()).(blackjack := true)
    {
      blackjack := true;
    }
  }
}
