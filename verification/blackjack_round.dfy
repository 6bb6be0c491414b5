/** One blackjack round: the player's decisions and the checks that accept
    them, the processing of the decisions, the dealer's draws and the
    settlement of every hand. */
module BlackjackRound {
  import opened Wrappers
  import opened SeqUtil
  import opened BlackjackCards
  import opened BlackjackHand

  // ---------------------------------------------------------------------
  // Decisions and the checks `play` makes before accepting one

  datatype Decision = Hit | Stand | DoubleDown | SplitHand | Surrender

  /** The decision typed by the player; anything else is "Not understood". */
  function ParseDecision(s: string): (d: Option<Decision>)
    ensures d.Some? <==> s in {"hit", "stand", "double", "split", "surrender"}
  {
    if s == "hit" then Some(Hit)
    else if s == "stand" then Some(Stand)
    else if s == "double" then Some(DoubleDown)
    else if s == "split" then Some(SplitHand)
    else if s == "surrender" then Some(Surrender)
    else None
  }

  /** The rule switches `play` consults while taking decisions. */
  datatype Rules = Rules(
    doubleAfterSplits: bool,
    restrictDouble: bool,
    enableSplitInAces: bool,
    enableSurrender: bool)

  /** Why a decision was refused; the player is asked again. */
  datatype Refusal =
    | MaxHandsReached
    | SplitAcesNotAllowed
    | CannotSplit
    | NotEnoughFunds
    | DoubleAfterSplitNotAllowed
    | DoubleOnlyOnNineToEleven
    | SurrenderNotAllowed

  /** Two cards of the same rank. */
  predicate Pair(cards: seq<Card>) {
    |cards| == 2 && cards[0].rank == cards[1].rank
  }

  /** The checks of `play` for one decision on one hand, in the source's
      order; an accepted decision yields the new `temp_bankroll`. The
      split budget `numSplit` is `max_num_hands - 1` for the whole round. */
  function Judge(rules: Rules, numSplit: int, numHands: nat, hand: HandView, temp: int, d: Decision)
    : Result<int, Refusal>
  {
    match d
    case Hit => Ok(temp)
    case Stand => Ok(temp)
    case SplitHand =>
      if numSplit == 0 then Err(MaxHandsReached)
      else if !rules.enableSplitInAces && Ranks(hand.cards) == [Ace, Ace] then Err(SplitAcesNotAllowed)
      else if !Pair(hand.cards) then Err(CannotSplit)
      else if hand.bet > temp then Err(NotEnoughFunds)
      else Ok(temp - hand.bet)
    case DoubleDown =>
      if numHands > 1 && !rules.doubleAfterSplits then Err(DoubleAfterSplitNotAllowed)
      else if rules.restrictDouble && MinTotal(hand.cards) !in {9, 10, 11} then Err(DoubleOnlyOnNineToEleven)
      else if hand.bet > temp then Err(NotEnoughFunds)
      else Ok(temp - hand.bet)
    case Surrender =>
      if !rules.enableSurrender then Err(SurrenderNotAllowed) else Ok(temp)
  }

  /** What a decision takes from the bankroll: the hand's bet for a split
      or a double, nothing otherwise. */
  function CostOf(d: Option<Decision>, bet: int): int {
    if d == Some(SplitHand) || d == Some(DoubleDown) then bet else 0
  }

  /** A split is accepted exactly when the split budget is not zero, the
      hand is not a pair of aces while split aces are off, it is a pair and
      its bet fits in the escrowed bankroll. */
  lemma JudgeSplit(rules: Rules, numSplit: int, numHands: nat, hand: HandView, temp: int)
    ensures Judge(rules, numSplit, numHands, hand, temp, SplitHand).Ok? <==>
      && numSplit != 0
      && (rules.enableSplitInAces || !(|hand.cards| == 2 && hand.cards[0].rank == Ace && hand.cards[1].rank == Ace))
      && Pair(hand.cards)
      && hand.bet <= temp
    ensures Judge(rules, numSplit, numHands, hand, temp, SplitHand).Ok? ==>
      Judge(rules, numSplit, numHands, hand, temp, SplitHand).value == temp - hand.bet
  {
    var rs := Ranks(hand.cards);
    if |hand.cards| == 2 && hand.cards[0].rank == Ace && hand.cards[1].rank == Ace {
      assert rs == [Ace, Ace];
    }
  }

  /** A double is accepted exactly when the hand is alone or doubling after
      a split is on, its lower total is 9, 10 or 11 when doubles are
      restricted, and its bet fits in the escrowed bankroll. */
  lemma JudgeDouble(rules: Rules, numSplit: int, numHands: nat, hand: HandView, temp: int)
    ensures Judge(rules, numSplit, numHands, hand, temp, DoubleDown).Ok? <==>
      && (numHands <= 1 || rules.doubleAfterSplits)
      && (!rules.restrictDouble || 9 <= MinTotal(hand.cards) <= 11)
      && hand.bet <= temp
    ensures Judge(rules, numSplit, numHands, hand, temp, DoubleDown).Ok? ==>
      Judge(rules, numSplit, numHands, hand, temp, DoubleDown).value == temp - hand.bet
  {
  }

  /** An accepted decision lowers the escrowed bankroll by exactly its
      cost and never below zero; hit and stand are always accepted, and
      surrender exactly when it is enabled. */
  lemma JudgeEscrow(rules: Rules, numSplit: int, numHands: nat, hand: HandView, temp: int, d: Decision)
    requires temp >= 0
    ensures Judge(rules, numSplit, numHands, hand, temp, d).Ok? ==>
      var t := Judge(rules, numSplit, numHands, hand, temp, d).value;
      t == temp - CostOf(Some(d), hand.bet) && t >= 0
    ensures d == Hit || d == Stand ==> Judge(rules, numSplit, numHands, hand, temp, d) == Ok(temp)
    ensures d == Surrender ==> (Judge(rules, numSplit, numHands, hand, temp, d).Ok? <==> rules.enableSurrender)
  {
  }

  /** The split budget is never spent: with `max_num_hands` = 2 (budget 1)
      a pair is still split when the player already holds two hands. */
  lemma SplitBudgetNeverSpent(rules: Rules, pair: seq<Card>, bet: int)
    requires Pair(pair) && pair[0].rank != Ace && 0 <= bet
    ensures Judge(rules, 2 - 1, 2, NewHand(pair, bet), bet, SplitHand) == Ok(0)
    ensures forall n: nat :: Judge(rules, 1, n, NewHand(pair, bet), bet, SplitHand) == Ok(0)
  {
    NewHandFlags(pair, bet);
    assert Ranks(pair)[0] == pair[0].rank;
  }

  // ---------------------------------------------------------------------
  // The escrow over one pass of the decision loop

  /** The sum of the costs of the decisions on the hands. */
  function Cost(vs: seq<HandView>, ds: seq<Option<Decision>>): int
    requires |vs| == |ds|
  {
    if vs == [] then 0 else CostOf(ds[0], vs[0].bet) + Cost(vs[1..], ds[1..])
  }

  /** One pass of the decision loop: closed hands get no decision, every
      open hand gets a decision that `Judge` accepts under the running
      `temp_bankroll`. The result is the final `temp_bankroll`, or `None`
      when the decisions are not ones the loop could have collected. */
  function Escrow(rules: Rules, numSplit: int, numHands: nat, vs: seq<HandView>, ds: seq<Option<Decision>>, temp: int)
    : Option<int>
    requires |vs| == |ds|
  {
    if vs == [] then Some(temp)
    else if vs[0].closed then
      if ds[0].None? then Escrow(rules, numSplit, numHands, vs[1..], ds[1..], temp) else None
    else if ds[0].None? then None
    else match Judge(rules, numSplit, numHands, vs[0], temp, ds[0].value)
      case Err(_) => None
      case Ok(t) => Escrow(rules, numSplit, numHands, vs[1..], ds[1..], t)
  }

  /** The bankroll the decisions leave is the bankroll minus their cost,
      and it is never negative: the escrow is what keeps `process_decisions`
      from spending money the player does not have. */
  lemma {:induction false} EscrowCost(rules: Rules, numSplit: int, numHands: nat, vs: seq<HandView>, ds: seq<Option<Decision>>, temp: int)
    requires |vs| == |ds| && temp >= 0
    requires Escrow(rules, numSplit, numHands, vs, ds, temp).Some?
    ensures Escrow(rules, numSplit, numHands, vs, ds, temp).value == temp - Cost(vs, ds)
    ensures temp - Cost(vs, ds) >= 0
  {
    if vs != [] {
      if vs[0].closed {
        EscrowCost(rules, numSplit, numHands, vs[1..], ds[1..], temp);
      } else {
        JudgeEscrow(rules, numSplit, numHands, vs[0], temp, ds[0].value);
        var t := Judge(rules, numSplit, numHands, vs[0], temp, ds[0].value).value;
        EscrowCost(rules, numSplit, numHands, vs[1..], ds[1..], t);
      }
    }
  }

  // ---------------------------------------------------------------------
  // process_decisions, as specified on hand views

  function CountSplits(ds: seq<Option<Decision>>): nat {
    if ds == [] then 0 else (if ds[0] == Some(SplitHand) then 1 else 0) + CountSplits(ds[1..])
  }

  /** The hand a split keeps and the hand it creates with the same bet. */
  function SplitKept(v: HandView): HandView {
    v.(cards := Init(v.cards))
  }

  function SplitOff(v: HandView): HandView {
    NewHand(Last(v.cards), v.bet)
  }

  function ExpandView(v: HandView, d: Option<Decision>): (r: seq<HandView>)
    ensures |r| == if d == Some(SplitHand) then 2 else 1
  {
    if d == Some(SplitHand) then [SplitKept(v), SplitOff(v)] else [v]
  }

  function ExpandDecision(d: Option<Decision>): (r: seq<Option<Decision>>)
    ensures |r| == if d == Some(SplitHand) then 2 else 1
  {
    if d == Some(SplitHand) then [Some(Hit), Some(Hit)] else [d]
  }

  /** The hands after every split is resolved: each split hand is followed
      by the hand split off it. */
  function ExpandViews(vs: seq<HandView>, ds: seq<Option<Decision>>): (r: seq<HandView>)
    requires |vs| == |ds|
    ensures |r| == |ExpandDecisions(ds)|
  {
    if vs == [] then [] else ExpandView(vs[0], ds[0]) + ExpandViews(vs[1..], ds[1..])
  }

  /** The decisions after every split is resolved: each split becomes two
      hits. */
  function ExpandDecisions(ds: seq<Option<Decision>>): (r: seq<Option<Decision>>)
  {
    if ds == [] then [] else ExpandDecision(ds[0]) + ExpandDecisions(ds[1..])
  }

  /** The total bet of the split hands. */
  function SplitCost(vs: seq<HandView>, ds: seq<Option<Decision>>): int
    requires |vs| == |ds|
  {
    if vs == [] then 0 else (if ds[0] == Some(SplitHand) then vs[0].bet else 0) + SplitCost(vs[1..], ds[1..])
  }

  /** Every split adds one hand. */
  lemma {:induction false} ExpandLength(vs: seq<HandView>, ds: seq<Option<Decision>>)
    requires |vs| == |ds|
    ensures |ExpandDecisions(ds)| == |vs| + CountSplits(ds)
  {
    if vs != [] {
      ExpandLength(vs[1..], ds[1..]);
    }
  }

  /** Each of the above distributes over concatenation. */
  lemma {:induction false} ExpandViewsAppend(vs1: seq<HandView>, ds1: seq<Option<Decision>>, vs2: seq<HandView>, ds2: seq<Option<Decision>>)
    requires |vs1| == |ds1| && |vs2| == |ds2|
    ensures ExpandViews(vs1 + vs2, ds1 + ds2) == ExpandViews(vs1, ds1) + ExpandViews(vs2, ds2)
  {
    if vs1 == [] {
      assert vs1 + vs2 == vs2 && ds1 + ds2 == ds2;
    } else {
      var h := ExpandView(vs1[0], ds1[0]);
      assert ExpandViews(vs1 + vs2, ds1 + ds2) == h + ExpandViews(vs1[1..] + vs2, ds1[1..] + ds2) by {
        assert (vs1 + vs2)[0] == vs1[0] && (vs1 + vs2)[1..] == vs1[1..] + vs2;
        assert (ds1 + ds2)[0] == ds1[0] && (ds1 + ds2)[1..] == ds1[1..] + ds2;
      }
      ExpandViewsAppend(vs1[1..], ds1[1..], vs2, ds2);
      var a, b := ExpandViews(vs1[1..], ds1[1..]), ExpandViews(vs2, ds2);
      assert h + (a + b) == (h + a) + b;
    }
  }

  lemma {:induction false} ExpandDecisionsAppend(ds1: seq<Option<Decision>>, ds2: seq<Option<Decision>>)
    ensures ExpandDecisions(ds1 + ds2) == ExpandDecisions(ds1) + ExpandDecisions(ds2)
  {
    if ds1 == [] {
      assert ds1 + ds2 == ds2;
    } else {
      var h := ExpandDecision(ds1[0]);
      assert ExpandDecisions(ds1 + ds2) == h + ExpandDecisions(ds1[1..] + ds2) by {
        assert (ds1 + ds2)[0] == ds1[0] && (ds1 + ds2)[1..] == ds1[1..] + ds2;
      }
      ExpandDecisionsAppend(ds1[1..], ds2);
      var a, b := ExpandDecisions(ds1[1..]), ExpandDecisions(ds2);
      assert h + (a + b) == (h + a) + b;
    }
  }

  lemma {:induction false} CountSplitsAppend(ds1: seq<Option<Decision>>, ds2: seq<Option<Decision>>)
    ensures CountSplits(ds1 + ds2) == CountSplits(ds1) + CountSplits(ds2)
  {
    if ds1 == [] {
      assert ds1 + ds2 == ds2;
    } else {
      CountSplitsAppend(ds1[1..], ds2);
      assert (ds1 + ds2)[1..] == ds1[1..] + ds2;
    }
  }

  lemma {:induction false} SplitCostAppend(vs1: seq<HandView>, ds1: seq<Option<Decision>>, vs2: seq<HandView>, ds2: seq<Option<Decision>>)
    requires |vs1| == |ds1| && |vs2| == |ds2|
    ensures SplitCost(vs1 + vs2, ds1 + ds2) == SplitCost(vs1, ds1) + SplitCost(vs2, ds2)
  {
    if vs1 == [] {
      assert vs1 + vs2 == vs2 && ds1 + ds2 == ds2;
    } else {
      SplitCostAppend(vs1[1..], ds1[1..], vs2, ds2);
      assert (vs1 + vs2)[1..] == vs1[1..] + vs2;
      assert (ds1 + ds2)[1..] == ds1[1..] + ds2;
    }
  }

  lemma {:induction false} CostAppend(vs1: seq<HandView>, ds1: seq<Option<Decision>>, vs2: seq<HandView>, ds2: seq<Option<Decision>>)
    requires |vs1| == |ds1| && |vs2| == |ds2|
    ensures Cost(vs1 + vs2, ds1 + ds2) == Cost(vs1, ds1) + Cost(vs2, ds2)
  {
    if vs1 == [] {
      assert vs1 + vs2 == vs2 && ds1 + ds2 == ds2;
    } else {
      CostAppend(vs1[1..], ds1[1..], vs2, ds2);
      assert (vs1 + vs2)[1..] == vs1[1..] + vs2;
      assert (ds1 + ds2)[1..] == ds1[1..] + ds2;
    }
  }

  /** A split hand expands to its two parts, each with a hit, and the two
      hits expand to themselves. */
  lemma ExpandSplitHand(v: HandView)
    ensures ExpandViews([v], [Some(SplitHand)]) == [SplitKept(v), SplitOff(v)]
    ensures ExpandDecisions([Some(SplitHand)]) == [Some(Hit), Some(Hit)]
    ensures CountSplits([Some(SplitHand)]) == 1 && SplitCost([v], [Some(SplitHand)]) == v.bet
    ensures ExpandViews([SplitKept(v), SplitOff(v)], [Some(Hit), Some(Hit)]) == [SplitKept(v), SplitOff(v)]
    ensures ExpandDecisions([Some(Hit), Some(Hit)]) == [Some(Hit), Some(Hit)]
    ensures CountSplits([Some(Hit), Some(Hit)]) == 0
    ensures SplitCost([SplitKept(v), SplitOff(v)], [Some(Hit), Some(Hit)]) == 0
    ensures Cost([SplitKept(v), SplitOff(v)], [Some(Hit), Some(Hit)]) == 0
  {
    var pair, hits := [SplitKept(v), SplitOff(v)], [Some(Hit), Some(Hit)];
    assert [v][1..] == [] && [Some(SplitHand)][1..] == [];
    assert pair[1..] == [SplitOff(v)] && hits[1..] == [Some(Hit)];
    assert pair[1..][1..] == [] && hits[1..][1..] == [];
    assert Cost(pair[1..][1..], hits[1..][1..]) == 0;
    assert Cost(pair[1..], hits[1..]) == 0;
  }

  lemma ExpandOther(v: HandView, d: Option<Decision>)
    requires d != Some(SplitHand)
    ensures ExpandViews([v], [d]) == [v] && ExpandDecisions([d]) == [d]
    ensures CountSplits([d]) == 0 && SplitCost([v], [d]) == 0 && Cost([v], [d]) == CostOf(d, v.bet)
  {
    assert [v][1..] == [] && [d][1..] == [];
  }

  /** Without a split nothing is expanded. */
  lemma {:induction false} ExpandNoSplit(vs: seq<HandView>, ds: seq<Option<Decision>>)
    requires |vs| == |ds| && CountSplits(ds) == 0
    ensures ExpandViews(vs, ds) == vs && ExpandDecisions(ds) == ds && SplitCost(vs, ds) == 0
    ensures forall i :: 0 <= i < |ds| ==> ds[i] != Some(SplitHand)
  {
    if vs != [] {
      ExpandNoSplit(vs[1..], ds[1..]);
      assert vs == [vs[0]] + vs[1..];
      assert ds == [ds[0]] + ds[1..];
      assert forall i :: 1 <= i < |ds| ==> ds[i] == ds[1..][i - 1];
    }
  }

  lemma {:induction false} NoSplitCount(ds: seq<Option<Decision>>)
    requires forall i :: 0 <= i < |ds| ==> ds[i] != Some(SplitHand)
    ensures CountSplits(ds) == 0
  {
    if ds != [] {
      assert forall i :: 1 <= i < |ds| ==> ds[1..][i - 1] == ds[i];
      NoSplitCount(ds[1..]);
    }
  }

  /** The expanded decisions hold no split. */
  lemma {:induction false} ExpandedHasNoSplit(ds: seq<Option<Decision>>)
    ensures CountSplits(ExpandDecisions(ds)) == 0
  {
    if ds != [] {
      ExpandedHasNoSplit(ds[1..]);
      var head := ExpandDecision(ds[0]);
      CountSplitsAppend(head, ExpandDecisions(ds[1..]));
      if ds[0] == Some(SplitHand) {
        ExpandSplitHand(HandView([], 0, false, false, false, false, false));
      } else {
        ExpandOther(HandView([], 0, false, false, false, false, false), ds[0]);
      }
    }
  }

  /** The cost of a round of decisions is the bet of every split hand plus
      the cost of the decisions left once the splits are resolved (only the
      doubles, since a split becomes two hits). */
  lemma {:induction false} CostExpand(vs: seq<HandView>, ds: seq<Option<Decision>>)
    requires |vs| == |ds|
    ensures Cost(vs, ds) == SplitCost(vs, ds) + Cost(ExpandViews(vs, ds), ExpandDecisions(ds))
  {
    if vs != [] {
      CostExpand(vs[1..], ds[1..]);
      var hv := ExpandView(vs[0], ds[0]);
      var hd := ExpandDecision(ds[0]);
      CostAppend(hv, hd, ExpandViews(vs[1..], ds[1..]), ExpandDecisions(ds[1..]));
      if ds[0] == Some(SplitHand) {
        ExpandSplitHand(vs[0]);
      } else {
        ExpandOther(vs[0], ds[0]);
      }
    }
  }

  /** What one resolved decision does to its hand; `dealt` is the card a
      hit drew. */
  function Apply(v: HandView, d: Option<Decision>, dealt: Option<Card>): HandView {
    match d
    case None => v
    case Some(Hit) => if dealt.Some? then WithCard(v, dealt.value) else v
    case Some(Stand) => v.(closed := true)
    case Some(DoubleDown) => v.(bet := 2 * v.bet)
    case Some(Surrender) => v.(closed := true, surrendered := true)
    case Some(SplitHand) => v
  }

  /** The cards dealt to the hands. */
  function DealtCards(dealt: seq<Option<Card>>): multiset<Card> {
    if dealt == [] then multiset{}
    else DealtCards(dealt[..|dealt| - 1]) + (if dealt[|dealt| - 1].Some? then multiset{dealt[|dealt| - 1].value} else multiset{})
  }

  /** The views of a list of hands. */
  ghost function Views(hs: seq<Hand>): (r: seq<HandView>)
    reads set h | h in hs
    ensures |r| == |hs| && forall i :: 0 <= i < |hs| ==> r[i] == hs[i].View()
  {
    if hs == [] then [] else [hs[0].View()] + Views(hs[1..])
  }

  /** The index of the leftmost split, `decisions.index('split')`. */
  function FirstSplit(ds: seq<Option<Decision>>): (i: nat)
    requires CountSplits(ds) > 0
    ensures i < |ds| && ds[i] == Some(SplitHand)
    ensures forall j :: 0 <= j < i ==> ds[j] != Some(SplitHand)
  {
    if ds[0] == Some(SplitHand) then 0 else 1 + FirstSplit(ds[1..])
  }

  /** The first loop of `process_decisions`: while a split is left, the
      leftmost split is resolved. The result is the list `ExpandViews`
      describes, with every split turned into two hits, and the cost is the
      bet of every split hand. */
  method ResolveSplits(hands: seq<Hand>, decisions: seq<Option<Decision>>)
    returns (hs: seq<Hand>, ds: seq<Option<Decision>>, cost: int)
    requires |hands| == |decisions| && Distinct(hands)
    modifies set h | h in hands
    ensures |hs| == |ds| && Distinct(hs)
    ensures forall h :: h in hs ==> h in hands || fresh(h)
    ensures ds == ExpandDecisions(decisions)
    ensures Views(hs) == ExpandViews(old(Views(hands)), decisions)
    ensures cost == SplitCost(old(Views(hands)), decisions)
  {
    ghost var start := Views(hands);
    hs, ds, cost := hands, decisions, 0;
    while CountSplits(ds) > 0
      invariant |hs| == |ds| && Distinct(hs)
      invariant forall h :: h in hs ==> h in hands || fresh(h)
      invariant ExpandDecisions(ds) == ExpandDecisions(decisions)
      invariant ExpandViews(Views(hs), ds) == ExpandViews(start, decisions)
      invariant cost + SplitCost(Views(hs), ds) == SplitCost(start, decisions)
      decreases CountSplits(ds)
    {
      var paid;
      hs, ds, paid := SplitFirst(hs, ds);
      cost := cost + paid;
    }
    ExpandNoSplit(Views(hs), ds);
  }

  /** One pass of the split loop: the leftmost split hand gives its last
      card to a new hand with the same bet, inserted right after it, and
      the split becomes two hits; the bet is paid. This keeps the
      expansion and leaves one split fewer. */
  method SplitFirst(hs: seq<Hand>, ds: seq<Option<Decision>>)
    returns (hs': seq<Hand>, ds': seq<Option<Decision>>, paid: int)
    requires |hs| == |ds| && Distinct(hs) && CountSplits(ds) > 0
    modifies set h | h in hs
    ensures |hs'| == |ds'| && Distinct(hs')
    ensures forall h :: h in hs' ==> h in hs || fresh(h)
    ensures ExpandDecisions(ds') == ExpandDecisions(ds)
    ensures CountSplits(ds') + 1 == CountSplits(ds)
    ensures ExpandViews(Views(hs'), ds') == ExpandViews(old(Views(hs)), ds)
    ensures SplitCost(Views(hs'), ds') + paid == SplitCost(old(Views(hs)), ds)
  {
    ghost var before := Views(hs);
    var index := FirstSplit(ds);
    var hand := hs[index];
    paid := hand.bet;
    var newHand := hand.Split(hand.bet);
    hs' := hs[..index + 1] + [newHand] + hs[index + 1..];
    ds' := ds[..index] + [Some(Hit), Some(Hit)] + ds[index + 1..];
    InsertDistinct(hs, index, newHand);
    forall j | 0 <= j < |hs| && j != index ensures hs[j].View() == before[j] {
      assert hs[j] != hand;
    }
    ViewsAfterSplit(hs, before, index, newHand, hs');
    SplitReplaceAt(before, ds, index);
  }

  /** `SplitReplace` at a position of the whole lists. */
  lemma SplitReplaceAt(vs: seq<HandView>, ds: seq<Option<Decision>>, index: nat)
    requires |vs| == |ds| && index < |ds| && ds[index] == Some(SplitHand)
    ensures var v := vs[index];
      var vs', ds' := vs[..index] + [SplitKept(v), SplitOff(v)] + vs[index + 1..], ds[..index] + [Some(Hit), Some(Hit)] + ds[index + 1..];
      && ExpandViews(vs', ds') == ExpandViews(vs, ds)
      && ExpandDecisions(ds') == ExpandDecisions(ds)
      && CountSplits(ds') + 1 == CountSplits(ds)
      && SplitCost(vs', ds') + v.bet == SplitCost(vs, ds)
  {
    assert vs == vs[..index] + [vs[index]] + vs[index + 1..];
    assert ds == ds[..index] + [Some(SplitHand)] + ds[index + 1..];
    SplitReplace(vs[..index], ds[..index], vs[index], vs[index + 1..], ds[index + 1..]);
  }

  /** Replacing a split hand by its two parts, each with a hit, keeps the
      expansion, leaves one split fewer and removes that hand's bet from the
      pending split cost. */
  lemma SplitReplace(pre: seq<HandView>, dpre: seq<Option<Decision>>, v: HandView,
                     post: seq<HandView>, dpost: seq<Option<Decision>>)
    requires |pre| == |dpre| && |post| == |dpost|
    ensures var vs, ds := pre + [v] + post, dpre + [Some(SplitHand)] + dpost;
      var vs', ds' := pre + [SplitKept(v), SplitOff(v)] + post, dpre + [Some(Hit), Some(Hit)] + dpost;
      && ExpandViews(vs', ds') == ExpandViews(vs, ds)
      && ExpandDecisions(ds') == ExpandDecisions(ds)
      && CountSplits(ds') + 1 == CountSplits(ds)
      && SplitCost(vs', ds') + v.bet == SplitCost(vs, ds)
  {
    var pair, hits := [SplitKept(v), SplitOff(v)], [Some(Hit), Some(Hit)];
    ExpandSplitHand(v);
    ExpandViewsAppend(pre, dpre, pair, hits);
    ExpandViewsAppend(pre + pair, dpre + hits, post, dpost);
    ExpandViewsAppend(pre, dpre, [v], [Some(SplitHand)]);
    ExpandViewsAppend(pre + [v], dpre + [Some(SplitHand)], post, dpost);
    ExpandDecisionsAppend(dpre, hits);
    ExpandDecisionsAppend(dpre + hits, dpost);
    ExpandDecisionsAppend(dpre, [Some(SplitHand)]);
    ExpandDecisionsAppend(dpre + [Some(SplitHand)], dpost);
    CountSplitsAppend(dpre, hits);
    CountSplitsAppend(dpre + hits, dpost);
    CountSplitsAppend(dpre, [Some(SplitHand)]);
    CountSplitsAppend(dpre + [Some(SplitHand)], dpost);
    SplitCostAppend(pre, dpre, pair, hits);
    SplitCostAppend(pre + pair, dpre + hits, post, dpost);
    SplitCostAppend(pre, dpre, [v], [Some(SplitHand)]);
    SplitCostAppend(pre + [v], dpre + [Some(SplitHand)], post, dpost);
  }

  /** Inserting a new object after position `index` keeps a list of
      objects distinct. */
  lemma InsertDistinct(hs: seq<Hand>, index: nat, h: Hand)
    requires Distinct(hs) && h !in hs && index < |hs|
    ensures Distinct(hs[..index + 1] + [h] + hs[index + 1..])
    ensures forall x :: x in hs[..index + 1] + [h] + hs[index + 1..] ==> x in hs || x == h
  {
    var hs' := hs[..index + 1] + [h] + hs[index + 1..];
    forall a, b | 0 <= a < b < |hs'| ensures hs'[a] != hs'[b] {
      if a == index + 1 {
        assert hs'[b] == hs[b - 1];
      } else if b == index + 1 {
        assert hs'[a] == hs[a];
      } else {
        var a' := if a <= index then a else a - 1;
        var b' := if b <= index then b else b - 1;
        assert hs'[a] == hs[a'] && hs'[b] == hs[b'];
      }
    }
  }

  /** The views after a split, given how each hand's view changed. */
  lemma ViewsAfterSplit(oldHs: seq<Hand>, before: seq<HandView>, index: nat, newHand: Hand, hs: seq<Hand>)
    requires |oldHs| == |before| && index < |oldHs|
    requires hs == oldHs[..index + 1] + [newHand] + oldHs[index + 1..]
    requires forall j :: 0 <= j < |oldHs| && j != index ==> oldHs[j].View() == before[j]
    requires oldHs[index].View() == SplitKept(before[index])
    requires newHand.View() == SplitOff(before[index])
    ensures Views(hs) == before[..index] + [SplitKept(before[index]), SplitOff(before[index])] + before[index + 1..]
  {
    var expected := before[..index] + [SplitKept(before[index]), SplitOff(before[index])] + before[index + 1..];
    forall j | 0 <= j < |hs| ensures hs[j].View() == expected[j] {
      if j < index {
        assert hs[j] == oldHs[j] && expected[j] == before[j];
      } else if j == index {
        assert hs[j] == oldHs[index];
      } else if j == index + 1 {
        assert hs[j] == newHand;
      } else {
        assert hs[j] == oldHs[j - 1] && expected[j] == before[j - 1];
      }
    }
  }

  /** The first `i` hands have had their decisions, with `dealt` the card
      each hit drew; the others are as they were. */
  ghost predicate HandsAt(hs: seq<Hand>, start: seq<HandView>, ds: seq<Option<Decision>>, dealt: seq<Option<Card>>, i: nat)
    reads set h | h in hs
    requires |hs| == |ds| == |start| && |dealt| == i <= |hs|
  {
    && (forall j :: 0 <= j < i ==> (dealt[j].Some? <==> ds[j] == Some(Hit)))
    && (forall j :: 0 <= j < i ==> hs[j].View() == Apply(start[j], ds[j], dealt[j]))
    && (forall j :: i <= j < |hs| ==> hs[j].View() == start[j])
  }

  lemma DealtCardsSnoc(dealt: seq<Option<Card>>, card: Option<Card>)
    ensures DealtCards(dealt + [card]) == DealtCards(dealt) + (if card.Some? then multiset{card.value} else multiset{})
  {
    assert (dealt + [card])[..|dealt|] == dealt;
  }

  lemma CostStep(vs: seq<HandView>, ds: seq<Option<Decision>>, i: nat)
    requires |vs| == |ds| && i < |vs|
    ensures Cost(vs[i..], ds[i..]) == CostOf(ds[i], vs[i].bet) + Cost(vs[i + 1..], ds[i + 1..])
  {
    assert vs[i..][1..] == vs[i + 1..] && ds[i..][1..] == ds[i + 1..];
  }

  /** Cards moved from the pile to the dealt cards keep their sum. */
  lemma Moved(p0: multiset<Card>, before: multiset<Card>, after: multiset<Card>, taken: multiset<Card>, x: multiset<Card>)
    requires p0 == before + taken && before == after + x
    ensures p0 == after + (taken + x)
  {
  }

  /** The second loop of `process_decisions`: each hand gets its decision.
      The pile running out is the error `draw` raises; hands already
      processed keep their changes. */
  method ApplyDecisions(hs: seq<Hand>, ds: seq<Option<Decision>>, pile: DrawPile)
    returns (r: Result<int, DrawError>, ghost dealt: seq<Option<Card>>)
    requires |hs| == |ds| && Distinct(hs) && pile.Valid()
    requires forall i :: 0 <= i < |ds| ==> ds[i] != Some(SplitHand)
    modifies (set h | h in hs), pile
    ensures pile.Valid()
    ensures r.Ok? ==>
      && r.value == Cost(old(Views(hs)), ds)
      && |dealt| == |hs|
      && HandsAt(hs, old(Views(hs)), ds, dealt, |hs|)
      && old(pile.pile) == pile.pile + DealtCards(dealt)
  {
    ghost var start := Views(hs);
    var cost := 0;
    dealt := [];
    var i := 0;
    while i < |hs|
      invariant 0 <= i <= |hs| && |dealt| == i
      invariant pile.Valid()
      invariant cost + Cost(start[i..], ds[i..]) == Cost(start, ds)
      invariant HandsAt(hs, start, ds, dealt, i)
      invariant old(pile.pile) == pile.pile + DealtCards(dealt)
    {
      ghost var before := pile.pile;
      var step := ApplyAt(hs, ds, pile, i, start, dealt);
      if step.Err? {
        return Err(step.error), dealt;
      }
      var (c, card) := step.value;
      cost := cost + c;
      CostStep(start, ds, i);
      DealtCardsSnoc(dealt, card);
      Moved(old(pile.pile), before, pile.pile, DealtCards(dealt), if card.Some? then multiset{card.value} else multiset{});
      dealt := dealt + [card];
      i := i + 1;
    }
    return Ok(cost), dealt;
  }

  /** One pass of the decision loop: hand `i` gets its decision and every
      other hand is left alone. */
  method ApplyAt(hs: seq<Hand>, ds: seq<Option<Decision>>, pile: DrawPile, i: nat,
                 ghost start: seq<HandView>, ghost dealt: seq<Option<Card>>)
    returns (r: Result<(int, Option<Card>), DrawError>)
    requires |hs| == |ds| == |start| && |dealt| == i < |hs| && Distinct(hs) && pile.Valid()
    requires ds[i] != Some(SplitHand)
    requires HandsAt(hs, start, ds, dealt, i)
    modifies hs[i], pile
    ensures pile.Valid()
    ensures r.Ok? ==>
      && r.value.0 == CostOf(ds[i], start[i].bet)
      && HandsAt(hs, start, ds, dealt + [r.value.1], i + 1)
      && old(pile.pile) == pile.pile + (if r.value.1.Some? then multiset{r.value.1.value} else multiset{})
  {
    r := ApplyOne(hs[i], ds[i], pile);
    if r.Ok? {
      forall j | 0 <= j < |hs| && j != i ensures hs[j].View() == old(hs[j].View()) {
        assert hs[j] != hs[i];
      }
    }
  }

  /** One decision on one hand: a hit draws a card and adds it, a stand
      closes the hand, a double doubles the bet (and costs it), a surrender
      closes and marks the hand. The result is the cost and the card dealt. */
  method ApplyOne(hand: Hand, d: Option<Decision>, pile: DrawPile) returns (r: Result<(int, Option<Card>), DrawError>)
    requires pile.Valid() && d != Some(SplitHand)
    modifies hand, pile
    ensures pile.Valid()
    ensures r.Ok? ==>
      && r.value.0 == CostOf(d, old(hand.bet))
      && (r.value.1.Some? <==> d == Some(Hit))
      && hand.View() == Apply(old(hand.View()), d, r.value.1)
      && old(pile.pile) == pile.pile + (if r.value.1.Some? then multiset{r.value.1.value} else multiset{})
  {
    match d {
      case Some(Hit) =>
        var drawn := pile.Draw(1);
        if drawn.Err? {
          return Err(drawn.error);
        }
        var c := drawn.value[0];
        assert drawn.value == [c];
        hand.AddCard(c);
        return Ok((0, Some(c)));
      case Some(Stand) =>
        hand.Close();
      case Some(DoubleDown) =>
        var bet := hand.bet;
        hand.Double();
        return Ok((bet, None));
      case Some(Surrender) =>
        hand.Surrender();
      case _ =>
    }
    return Ok((0, None));
  }

  /** `process_decisions`: the splits, then every decision in turn. The
      hand list grows by exactly the number of splits and the cost is what
      the decisions cost on the hands as they were, so a round of
      decisions the escrow accepted leaves the bankroll non-negative. */
  method ProcessDecisions(hands: seq<Hand>, decisions: seq<Option<Decision>>, pile: DrawPile)
    returns (hs: seq<Hand>, r: Result<int, DrawError>, ghost dealt: seq<Option<Card>>)
    requires |hands| == |decisions| && Distinct(hands) && pile.Valid()
    modifies (set h | h in hands), pile
    ensures pile.Valid()
    ensures |hs| == |hands| + CountSplits(decisions)
    ensures forall h :: h in hs ==> h in hands || fresh(h)
    ensures r.Ok? ==>
      var mid := ExpandViews(old(Views(hands)), decisions);
      var ds := ExpandDecisions(decisions);
      && r.value == Cost(old(Views(hands)), decisions)
      && |dealt| == |hs| == |ds| == |mid|
      && HandsAt(hs, mid, ds, dealt, |hs|)
      && old(pile.pile) == pile.pile + DealtCards(dealt)
  {
    ghost var start := Views(hands);
    var ds, splitCost;
    hs, ds, splitCost := ResolveSplits(hands, decisions);
    ExpandLength(start, decisions);
    ExpandedHasNoSplit(decisions);
    ExpandNoSplit(Views(hs), ds);
    var applied;
    applied, dealt := ApplyDecisions(hs, ds, pile);
    if applied.Err? {
      return hs, Err(applied.error), dealt;
    }
    CostExpand(start, decisions);
    r := Ok(splitCost + applied.value);
  }

  // ---------------------------------------------------------------------
  // dealer_play

  /** `sorted(hand.ranks) == ['6', 'A']`: exactly a six and an ace. */
  predicate SixAce(cards: seq<Card>) {
    && |cards| == 2
    && ((cards[0].rank == Six && cards[1].rank == Ace) || (cards[0].rank == Ace && cards[1].rank == Six))
  }

  /** The dealer's loop condition: lower total under 17, hand open. */
  predicate DealerDraws(v: HandView) {
    MinTotal(v.cards) < 17 && !v.closed
  }

  /** Every card in `drawn` was drawn while the loop condition held. */
  ghost predicate DrewWhileOpen(v0: HandView, drawn: seq<Card>) {
    forall k :: 0 <= k < |drawn| ==> DealerDraws(WithCards(v0, drawn[..k]))
  }

  lemma DrewWhileOpenSnoc(v0: HandView, drawn: seq<Card>, c: Card)
    requires DrewWhileOpen(v0, drawn) && DealerDraws(WithCards(v0, drawn))
    ensures DrewWhileOpen(v0, drawn + [c])
  {
    var drawn' := drawn + [c];
    forall k | 0 <= k < |drawn'| ensures DealerDraws(WithCards(v0, drawn'[..k])) {
      if k < |drawn| {
        assert drawn'[..k] == drawn[..k];
      } else {
        assert drawn'[..k] == drawn;
      }
    }
  }

  /** A card moved from the pile to the drawn cards keeps their sum. */
  lemma MovedCard(p0: multiset<Card>, before: multiset<Card>, after: multiset<Card>, drawn: seq<Card>, c: Card)
    requires p0 == before + multiset(drawn) && before == after + multiset{c}
    ensures p0 == after + multiset(drawn + [c])
  {
    assert multiset(drawn + [c]) == multiset(drawn) + multiset{c};
  }

  /** One pass of the dealer's loop: the hand gains the drawn card, which
      leaves the pile, and its lower total grows. */
  lemma DealerDrawStep(v0: HandView, drawn: seq<Card>, view: HandView, c: Card,
                       p0: multiset<Card>, before: multiset<Card>, after: multiset<Card>)
    requires view == WithCards(v0, drawn) && DrewWhileOpen(v0, drawn) && DealerDraws(view)
    requires p0 == before + multiset(drawn) && before == after + multiset{c}
    ensures WithCard(view, c) == WithCards(v0, drawn + [c])
    ensures DrewWhileOpen(v0, drawn + [c])
    ensures p0 == after + multiset(drawn + [c])
    ensures MinTotal(WithCard(view, c).cards) > MinTotal(view.cards)
  {
    WithCardsSnoc(v0, drawn, c);
    DrewWhileOpenSnoc(v0, drawn, c);
    MovedCard(p0, before, after, drawn, c);
    CheckedFacts(view.(cards := view.cards + [c]));
    MinTotalSnoc(view.cards, c);
  }

  /** `dealer_play`: on a six and an ace the dealer draws once when soft 17
      must be hit, otherwise not at all; on any other hand the dealer draws
      while the lower total is under 17 and the hand is open, and stops as
      soon as that no longer holds. The drawn cards come from the pile and
      are added to the hand in order. */
  method DealerPlay(hand: Hand, hitSoft17: bool, pile: DrawPile)
    returns (r: Result<(), DrawError>, ghost drawn: seq<Card>)
    requires pile.Valid()
    modifies hand, pile
    ensures pile.Valid()
    ensures r.Ok? ==> hand.View() == WithCards(old(hand.View()), drawn)
    ensures r.Ok? ==> old(pile.pile) == pile.pile + multiset(drawn)
    ensures r.Ok? && SixAce(old(hand.cards)) ==> |drawn| == (if hitSoft17 then 1 else 0)
    ensures r.Ok? && !SixAce(old(hand.cards)) ==>
      !DealerDraws(hand.View()) && DrewWhileOpen(old(hand.View()), drawn)
  {
    drawn := [];
    if SixAce(hand.cards) {
      if hitSoft17 {
        ghost var v0 := hand.View();
        var d := pile.Draw(1);
        if d.Err? { return Err(d.error), drawn; }
        var c := d.value[0];
        hand.AddCard(c);
        drawn := [c];
        assert d.value == drawn;
        assert hand.View() == WithCards(v0, drawn) by {
          WithCardsSnoc(v0, [], c);
          assert [] + drawn == drawn;
        }
      }
      return Ok(()), drawn;
    }
    r, drawn := DealerDrawLoop(hand, pile);
  }

  /** The loop of `dealer_play`: draw while the lower total is under 17
      and the hand is open. */
  method DealerDrawLoop(hand: Hand, pile: DrawPile) returns (r: Result<(), DrawError>, ghost drawn: seq<Card>)
    requires pile.Valid()
    modifies hand, pile
    ensures pile.Valid()
    ensures r.Ok? ==> hand.View() == WithCards(old(hand.View()), drawn)
    ensures r.Ok? ==> old(pile.pile) == pile.pile + multiset(drawn)
    ensures r.Ok? ==> !DealerDraws(hand.View()) && DrewWhileOpen(old(hand.View()), drawn)
  {
    ghost var v0 := hand.View();
    drawn := [];
    while MinTotal(hand.cards) < 17 && !hand.closed
      invariant pile.Valid()
      invariant hand.View() == WithCards(v0, drawn)
      invariant old(pile.pile) == pile.pile + multiset(drawn)
      invariant DrewWhileOpen(v0, drawn)
      decreases 17 - MinTotal(hand.cards)
    {
      ghost var before, view := pile.pile, hand.View();
      var d := pile.Draw(1);
      if d.Err? { return Err(d.error), drawn; }
      var c := d.value[0];
      assert d.value == [c];
      hand.AddCard(c);
      DealerDrawStep(v0, drawn, view, c, old(pile.pile), before, pile.pile);
      drawn := drawn + [c];
    }
    return Ok(()), drawn;
  }

  // ---------------------------------------------------------------------
  // get_results

  datatype Outcome = Win | Lost | Draw | Surrendered

  /** The result of one hand against the dealer's: surrendered hands get
      half their bet back (rounded down), busted hands nothing, every other
      hand double its bet when the dealer busted, else by comparing best
      values: equal gets the bet back, higher double, lower nothing. */
  function Settle(dealer: HandView, hand: HandView): (Outcome, int) {
    if hand.surrendered then (Surrendered, hand.bet / 2)
    else if hand.busted then (Lost, 0)
    else if dealer.busted then (Win, hand.bet * 2)
    else if BestValue(hand.cards) == BestValue(dealer.cards) then (Draw, hand.bet)
    else if BestValue(hand.cards) > BestValue(dealer.cards) then (Win, hand.bet * 2)
    else (Lost, 0)
  }

  /** `get_results`: one result per hand, in order. */
  function GetResults(dealer: HandView, hands: seq<HandView>): (r: seq<(Outcome, int)>)
    ensures |r| == |hands|
    ensures forall i :: 0 <= i < |hands| ==> r[i] == Settle(dealer, hands[i])
  {
    if hands == [] then [] else [Settle(dealer, hands[0])] + GetResults(dealer, hands[1..])
  }

  /** Each outcome pays a fixed share of the bet: a win twice the bet, a
      draw the bet, a surrender half of it, a loss nothing; so a payout is
      between nothing and twice the bet. */
  lemma SettlePayout(dealer: HandView, hand: HandView)
    requires hand.bet >= 0
    ensures var (o, p) := Settle(dealer, hand);
      && 0 <= p <= 2 * hand.bet
      && (o == Win <==> !hand.surrendered && !hand.busted && (dealer.busted || BestValue(hand.cards) > BestValue(dealer.cards)))
      && (o == Win ==> p == 2 * hand.bet)
      && (o == Draw ==> p == hand.bet)
      && (o == Lost ==> p == 0)
      && (o == Surrendered ==> 2 * p <= hand.bet < 2 * p + 2)
  {
  }

  /** With the same bet and flags, a higher best value never pays less. */
  lemma SettleMonotone(dealer: HandView, h1: HandView, h2: HandView)
    requires h1.bet == h2.bet >= 0
    requires h1.surrendered == h2.surrendered && h1.busted == h2.busted
    requires BestValue(h1.cards) >= BestValue(h2.cards)
    ensures Settle(dealer, h1).1 >= Settle(dealer, h2).1
  {
  }

  /** The total paid back for a round, `sum(r[1] for r in results)`. */
  function TotalPayout(results: seq<(Outcome, int)>): int {
    if results == [] then 0 else results[0].1 + TotalPayout(results[1..])
  }

  function TotalBet(hands: seq<HandView>): int {
    if hands == [] then 0 else hands[0].bet + TotalBet(hands[1..])
  }

  /** A round pays back between nothing and twice the total bet. */
  lemma {:induction false} PayoutBounds(dealer: HandView, hands: seq<HandView>)
    requires forall i :: 0 <= i < |hands| ==> hands[i].bet >= 0
    ensures 0 <= TotalPayout(GetResults(dealer, hands)) <= 2 * TotalBet(hands)
  {
    if hands != [] {
      SettlePayout(dealer, hands[0]);
      PayoutBounds(dealer, hands[1..]);
      assert GetResults(dealer, hands)[1..] == GetResults(dealer, hands[1..]);
    }
  }
}
