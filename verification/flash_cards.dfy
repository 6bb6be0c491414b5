/** The flash-card model: card names, scores, the score-ordered card list
    and the progress counters of a project. Dates are day numbers; the
    current day is a parameter. */
module FlashCards {
  import opened Wrappers
  import opened Text

  /** A card as far as the rules look at it: its name, how often it was
      revised, the day of its last revision (if any) and whether it is
      learned. */
  datatype Card = Card(name: string, numRevisions: nat, lastRevision: Option<int>, learned: bool)

  // ---------------------------------------------------------------------
  // is_valid_name

  /** The characters of `VALID_CHARS`: ASCII letters, digits, space, '-'
      and '_'. */
  predicate ValidChar(c: char) {
    IsAsciiLetter(c) || IsDigit(c) || c == ' ' || c == '-' || c == '_'
  }

  /** `is_valid_name`: no character of the name lies outside the valid set. */
  function IsValidName(name: string): (b: bool)
    ensures b <==> forall i :: 0 <= i < |name| ==> ValidChar(name[i])
  {
    var invalid := set c | c in name && !ValidChar(c);
    assert invalid != {} ==> exists i :: 0 <= i < |name| && !ValidChar(name[i]) by {
      if invalid != {} {
        var c :| c in invalid;
        var i :| 0 <= i < |name| && name[i] == c;
      }
    }
    assert (exists i :: 0 <= i < |name| && !ValidChar(name[i])) ==> invalid != {} by {
      if exists i :: 0 <= i < |name| && !ValidChar(name[i]) {
        var i :| 0 <= i < |name| && !ValidChar(name[i]);
        assert name[i] in invalid;
      }
    }
    invalid == {}
  }

  /** The empty name is valid, and a name is valid exactly when each of
      its parts is. */
  lemma ValidNameFacts(a: string, b: string)
    ensures IsValidName("")
    ensures IsValidName(a + b) <==> IsValidName(a) && IsValidName(b)
  {
    if IsValidName(a) && IsValidName(b) {
      forall i | 0 <= i < |a + b| ensures ValidChar((a + b)[i]) {
        if i >= |a| { assert (a + b)[i] == b[i - |a|]; }
      }
    }
    if IsValidName(a + b) {
      forall i | 0 <= i < |b| ensures ValidChar(b[i]) {
        assert (a + b)[|a| + i] == b[i];
      }
      forall i | 0 <= i < |a| ensures ValidChar(a[i]) {
        assert (a + b)[i] == a[i];
      }
    }
  }

  // ---------------------------------------------------------------------
  // card_score

  /** Python's `round` on a number it holds exactly: to the nearest
      integer, halves to the even neighbour. */
  function Round(x: real): (n: int)
    ensures x - 0.5 <= n as real <= x + 0.5
  {
    var f := x.Floor;
    var frac := x - f as real;
    if frac < 0.5 then f
    else if frac > 0.5 then f + 1
    else if f % 2 == 0 then f else f + 1
  }

  /** The polygonal complement for the days since the last revision. */
  function DaysComplement(days: nat): real {
    if days > 14 then 100.0 + ((days - 14) * 2) as real else (100.0 / 14.0) * days as real
  }

  /** `card_score` for a card never revised: the days since revision count
      as 0, so the score is the starting score, 100 for a card still to be
      learned and 0 for a learned one. */
  function CardScore(c: Card): (r: int)
    requires c.numRevisions == 0
    ensures r == if c.learned then 0 else 100
  {
    var start: real := if c.learned then 0.0 else 100.0;
    var days: nat := 0;
    Round(start + DaysComplement(days))
  }

  // ---------------------------------------------------------------------
  // reviewed_today

  /** `reviewed_today`: a card never revised was not revised today. */
  function ReviewedToday(c: Card, today: int): (b: bool)
    ensures b <==> c.lastRevision == Some(today)
  {
    c.lastRevision.Some? && c.lastRevision.value == today
  }

  // ---------------------------------------------------------------------
  // The score-ordered list: insert_card and score_cards

  datatype Scored = Scored(card: Card, score: int)

  /** Non-increasing scores. */
  predicate SortedDesc(s: seq<Scored>) {
    forall i, j :: 0 <= i < j < |s| ==> s[i].score >= s[j].score
  }

  /** The first entry whose score is strictly below `score` (or the end). */
  function FirstSmaller(s: seq<Scored>, score: int): (i: nat)
    ensures i <= |s|
    ensures forall j :: 0 <= j < i ==> s[j].score >= score
    ensures i < |s| ==> s[i].score < score
  {
    if s == [] || s[0].score < score then 0 else 1 + FirstSmaller(s[1..], score)
  }

  /** The entry placed before the first strictly smaller score, after all
      ties. */
  function InsertSorted(x: Scored, s: seq<Scored>): seq<Scored> {
    var i := FirstSmaller(s, x.score);
    s[..i] + [x] + s[i..]
  }

  /** The list of (card, score) pairs in card order. */
  function Pairs(cards: seq<Card>, key: Card -> int): (r: seq<Scored>)
    ensures |r| == |cards| && forall i :: 0 <= i < |cards| ==> r[i] == Scored(cards[i], key(cards[i]))
  {
    seq(|cards|, i requires 0 <= i < |cards| => Scored(cards[i], key(cards[i])))
  }

  /** The entries with a given score, in order. */
  function WithScore(s: seq<Scored>, k: int): seq<Scored> {
    if s == [] then [] else (if s[0].score == k then [s[0]] else []) + WithScore(s[1..], k)
  }

  lemma {:induction false} WithScoreAppend(a: seq<Scored>, b: seq<Scored>, k: int)
    ensures WithScore(a + b, k) == WithScore(a, k) + WithScore(b, k)
  {
    if a == [] {
      assert a + b == b;
    } else {
      var head := if a[0].score == k then [a[0]] else [];
      assert (a + b)[0] == a[0] && (a + b)[1..] == a[1..] + b;
      assert WithScore(a + b, k) == head + WithScore(a[1..] + b, k);
      WithScoreAppend(a[1..], b, k);
      assert head + (WithScore(a[1..], k) + WithScore(b, k)) == (head + WithScore(a[1..], k)) + WithScore(b, k);
    }
  }

  /** Nothing in a list whose scores are all below `k` has score `k`. */
  lemma {:induction false} WithScoreBelow(s: seq<Scored>, k: int)
    requires forall j :: 0 <= j < |s| ==> s[j].score < k
    ensures WithScore(s, k) == []
  {
    if s != [] {
      WithScoreBelow(s[1..], k);
    }
  }

  /** Inserting into a sorted list keeps it sorted, adds exactly the new
      entry, and puts it after every entry of the same score. */
  lemma InsertSortedFacts(x: Scored, s: seq<Scored>)
    requires SortedDesc(s)
    ensures SortedDesc(InsertSorted(x, s))
    ensures multiset(InsertSorted(x, s)) == multiset(s) + multiset{x}
    ensures forall k :: WithScore(InsertSorted(x, s), k) == WithScore(s, k) + WithScore([x], k)
  {
    InsertSortedSorted(x, s);
    var i := FirstSmaller(s, x.score);
    assert s == s[..i] + s[i..];
    forall k ensures WithScore(InsertSorted(x, s), k) == WithScore(s, k) + WithScore([x], k) {
      InsertSortedWithScore(x, s, k);
    }
  }

  lemma InsertSortedSorted(x: Scored, s: seq<Scored>)
    requires SortedDesc(s)
    ensures SortedDesc(InsertSorted(x, s))
  {
    var i := FirstSmaller(s, x.score);
    var r := InsertSorted(x, s);
    forall p, q | 0 <= p < q < |r| ensures r[p].score >= r[q].score {
      if q < i {
        assert r[p] == s[p] && r[q] == s[q];
      } else if q == i {
        assert r[p] == s[p];
      } else if p < i {
        assert r[p] == s[p] && r[q] == s[q - 1];
      } else if p == i {
        assert r[q] == s[q - 1] && s[i].score < x.score;
      } else {
        assert r[p] == s[p - 1] && r[q] == s[q - 1];
      }
    }
  }

  lemma InsertSortedWithScore(x: Scored, s: seq<Scored>, k: int)
    requires SortedDesc(s)
    ensures WithScore(InsertSorted(x, s), k) == WithScore(s, k) + WithScore([x], k)
  {
    var i := FirstSmaller(s, x.score);
    var wa, wx, wb := WithScore(s[..i], k), WithScore([x], k), WithScore(s[i..], k);
    InsertSortedPieces(x, s, k);
    WithScoreSingle(x, k);
    if k == x.score {
      TailBelow(s, x.score);
      assert wa + wx + wb == wa + wx && wa + wb == wa;
    } else {
      assert wa + wx + wb == wa + wb && wa + wb + wx == wa + wb;
    }
  }

  /** The entries of a score around the insertion point. */
  lemma InsertSortedPieces(x: Scored, s: seq<Scored>, k: int)
    ensures var i := FirstSmaller(s, x.score);
      && WithScore(InsertSorted(x, s), k) == WithScore(s[..i], k) + WithScore([x], k) + WithScore(s[i..], k)
      && WithScore(s, k) == WithScore(s[..i], k) + WithScore(s[i..], k)
  {
    var i := FirstSmaller(s, x.score);
    var before, after := s[..i], s[i..];
    assert InsertSorted(x, s) == (before + [x]) + after;
    WithScoreAppend(before + [x], after, k);
    WithScoreAppend(before, [x], k);
    assert s == before + after;
    WithScoreAppend(before, after, k);
  }

  lemma WithScoreSingle(x: Scored, k: int)
    ensures WithScore([x], k) == if x.score == k then [x] else []
  {
    assert [x][1..] == [];
  }

  /** In a sorted list nothing from the first strictly smaller score on
      has a score of `score` or more, so none has score `score`. */
  lemma TailBelow(s: seq<Scored>, score: int)
    requires SortedDesc(s)
    ensures WithScore(s[FirstSmaller(s, score)..], score) == []
  {
    var i := FirstSmaller(s, score);
    forall j | 0 <= j < |s[i..]| ensures s[i..][j].score < score {
      assert s[i..][j] == s[i + j];
    }
    WithScoreBelow(s[i..], score);
  }

  /** `score_cards`: every card paired with its score, ordered by
      non-increasing score, ties in card order (a stable sort). */
  function ScoreCards(cards: seq<Card>, key: Card -> int): (r: seq<Scored>)
    ensures SortedDesc(r)
    ensures multiset(r) == multiset(Pairs(cards, key))
    ensures forall k :: WithScore(r, k) == WithScore(Pairs(cards, key), k)
  {
    if cards == [] then []
    else
      var init := cards[..|cards| - 1];
      var last := cards[|cards| - 1];
      var rest := ScoreCards(init, key);
      var x := Scored(last, key(last));
      ScoreCardsStep(cards, key, rest);
      InsertSorted(x, rest)
  }

  /** Inserting the last card's pair into the scored list of the others
      gives a scored list of all the cards. */
  lemma ScoreCardsStep(cards: seq<Card>, key: Card -> int, rest: seq<Scored>)
    requires cards != []
    requires var init := Pairs(cards[..|cards| - 1], key);
      && SortedDesc(rest) && multiset(rest) == multiset(init)
      && forall k :: WithScore(rest, k) == WithScore(init, k)
    ensures var r := InsertSorted(Scored(cards[|cards| - 1], key(cards[|cards| - 1])), rest);
      && SortedDesc(r) && multiset(r) == multiset(Pairs(cards, key))
      && forall k :: WithScore(r, k) == WithScore(Pairs(cards, key), k)
  {
    var init := cards[..|cards| - 1];
    var last := cards[|cards| - 1];
    var x := Scored(last, key(last));
    InsertSortedFacts(x, rest);
    assert Pairs(cards, key) == Pairs(init, key) + [x];
    forall k ensures WithScore(Pairs(cards, key), k) == WithScore(Pairs(init, key), k) + WithScore([x], k) {
      WithScoreAppend(Pairs(init, key), [x], k);
    }
  }

  /** A list the caller keeps ordered by score, changed in place by
      `insert_card`. */
  class ScoredCards {
    var entries: seq<Scored>

    constructor (entries: seq<Scored>)
      ensures this.entries == entries
    {
      this.entries := entries;
    }

    /** `insert_card`: the entry goes before the first entry with a
        strictly smaller score, or at the end; the index it now sits at is
        returned. Without an explicit score, `key` scores the card. */
    method InsertCard(card: Card, score: Option<int>, key: Card -> int) returns (i: nat)
      modifies this
      ensures var sc := if score.None? then key(card) else score.value;
        && i == FirstSmaller(old(entries), sc)
        && entries == InsertSorted(Scored(card, sc), old(entries))
        && entries[i] == Scored(card, sc)
        && |entries| == |old(entries)| + 1
        && (SortedDesc(old(entries)) ==> SortedDesc(entries))
    {
      var sc := if score.None? then key(card) else score.value;
      i := 0;
      while i < |entries|
        invariant i <= |entries| && entries == old(entries)
        invariant forall j :: 0 <= j < i ==> entries[j].score >= sc
      {
        if entries[i].score < sc {
          break;
        }
        i := i + 1;
      }
      FirstSmallerUnique(entries, sc, i);
      InsertAtSorted(Scored(card, sc), entries);
      entries := entries[..i] + [Scored(card, sc)] + entries[i..];
    }
  }

  /** The conditions on `FirstSmaller` determine it. */
  lemma FirstSmallerUnique(s: seq<Scored>, score: int, i: nat)
    requires i <= |s|
    requires forall j :: 0 <= j < i ==> s[j].score >= score
    requires i < |s| ==> s[i].score < score
    ensures i == FirstSmaller(s, score)
  {
  }

  lemma InsertAtSorted(x: Scored, s: seq<Scored>)
    ensures SortedDesc(s) ==> SortedDesc(InsertSorted(x, s))
  {
    if SortedDesc(s) {
      InsertSortedFacts(x, s);
    }
  }

  // ---------------------------------------------------------------------
  // project_progress

  /** Counters over the cards of a project. */
  function CountLearned(cards: seq<Card>): nat {
    if cards == [] then 0
    else CountLearned(cards[..|cards| - 1]) + (if cards[|cards| - 1].learned then 1 else 0)
  }

  function CountReviewed(cards: seq<Card>, today: int): nat {
    if cards == [] then 0
    else CountReviewed(cards[..|cards| - 1], today) + (if ReviewedToday(cards[|cards| - 1], today) then 1 else 0)
  }

  function CountLearnedToday(cards: seq<Card>, today: int): nat {
    if cards == [] then 0
    else
      var c := cards[|cards| - 1];
      CountLearnedToday(cards[..|cards| - 1], today) + (if ReviewedToday(c, today) && c.learned then 1 else 0)
  }

  /** Learned-today cards were reviewed today; no counter exceeds the
      number of cards. */
  lemma {:induction false} CountBounds(cards: seq<Card>, today: int)
    ensures CountLearnedToday(cards, today) <= CountReviewed(cards, today) <= |cards|
    ensures CountLearnedToday(cards, today) <= CountLearned(cards) <= |cards|
  {
    if cards != [] {
      CountBounds(cards[..|cards| - 1], today);
    }
  }

  /** `a > b` on dates, which raises TypeError when either side is None. */
  function Greater(a: Option<int>, b: Option<int>): (r: Option<bool>)
    ensures r.None? <==> a.None? || b.None?
    ensures r.Some? ==> (r.value <==> a.value > b.value)
  {
    if a.None? || b.None? then None else Some(a.value > b.value)
  }

  datatype Progress = Progress(lastStudied: Option<int>, reviewedToday: nat, learnedToday: nat, learnedTotal: nat)

  /** `date()` of a card never revised raises AttributeError; a project
      with no card divides by zero. */
  datatype ProgressError = NoLastRevision | NoCards

  /** `project_progress` without the percentage: the counters over the
      project's cards (in dictionary order). The comparison with the
      `None` the latest date starts as always raises TypeError, which is
      swallowed, so the latest date stays unknown for every input (see
      `ProjectProgressIntended` for the evident intent). */
  method ProjectProgress(cards: seq<Card>, today: int) returns (r: Result<Progress, ProgressError>)
    ensures r == Err(NoCards) <==> cards == []
    ensures r == Err(NoLastRevision) <==> exists i :: 0 <= i < |cards| && cards[i].lastRevision.None?
    ensures r.Ok? ==> r.value == Progress(None, CountReviewed(cards, today), CountLearnedToday(cards, today), CountLearned(cards))
  {
    var lastStudied: Option<int> := None;
    var learnedTotal, reviewed, learnedToday := 0, 0, 0;
    var i := 0;
    while i < |cards|
      invariant i <= |cards|
      invariant lastStudied.None?
      invariant forall j :: 0 <= j < i ==> cards[j].lastRevision.Some?
      invariant learnedTotal == CountLearned(cards[..i])
      invariant reviewed == CountReviewed(cards[..i], today)
      invariant learnedToday == CountLearnedToday(cards[..i], today)
    {
      var c := cards[i];
      assert cards[..i + 1][..i] == cards[..i];
      learnedTotal := learnedTotal + if c.learned then 1 else 0;
      if Greater(c.lastRevision, lastStudied) == Some(true) {
        lastStudied := c.lastRevision;
      }
      if c.lastRevision.None? {
        return Err(NoLastRevision);
      }
      if c.lastRevision.value == today {
        reviewed := reviewed + 1;
        if c.learned {
          learnedToday := learnedToday + 1;
        }
      }
      i := i + 1;
    }
    assert cards[..i] == cards;
    if |cards| == 0 {
      return Err(NoCards);
    }
    return Ok(Progress(lastStudied, reviewed, learnedToday, learnedTotal));
  }

  /** `project_progress` as evidently intended: the running latest date
      starts from the first card (`last_studied is None or ...`), so the
      latest revision date among the cards is reported. */
  method ProjectProgressIntended(cards: seq<Card>, today: int) returns (r: Result<Progress, ProgressError>)
    ensures r == Err(NoCards) <==> cards == []
    ensures r == Err(NoLastRevision) <==> exists i :: 0 <= i < |cards| && cards[i].lastRevision.None?
    ensures r.Ok? ==>
      && r.value.reviewedToday == CountReviewed(cards, today)
      && r.value.learnedToday == CountLearnedToday(cards, today)
      && r.value.learnedTotal == CountLearned(cards)
    ensures r.Ok? ==>
      && r.value.lastStudied.Some?
      && (exists i :: 0 <= i < |cards| && cards[i].lastRevision == r.value.lastStudied)
      && (forall i :: 0 <= i < |cards| ==> cards[i].lastRevision.value <= r.value.lastStudied.value)
  {
    var lastStudied: Option<int> := None;
    var learnedTotal, reviewed, learnedToday := 0, 0, 0;
    var i := 0;
    while i < |cards|
      invariant i <= |cards|
      invariant forall j :: 0 <= j < i ==> cards[j].lastRevision.Some?
      invariant lastStudied.None? <==> i == 0
      invariant lastStudied.Some? ==>
        && (exists j :: 0 <= j < i && cards[j].lastRevision == lastStudied)
        && (forall j :: 0 <= j < i ==> cards[j].lastRevision.value <= lastStudied.value)
      invariant learnedTotal == CountLearned(cards[..i])
      invariant reviewed == CountReviewed(cards[..i], today)
      invariant learnedToday == CountLearnedToday(cards[..i], today)
    {
      var c := cards[i];
      assert cards[..i + 1][..i] == cards[..i];
      learnedTotal := learnedTotal + if c.learned then 1 else 0;
      if lastStudied.None? || Greater(c.lastRevision, lastStudied) == Some(true) {
        lastStudied := c.lastRevision;
      }
      if c.lastRevision.None? {
        return Err(NoLastRevision);
      }
      if c.lastRevision.value == today {
        reviewed := reviewed + 1;
        if c.learned {
          learnedToday := learnedToday + 1;
        }
      }
      i := i + 1;
    }
    assert cards[..i] == cards;
    if |cards| == 0 {
      return Err(NoCards);
    }
    return Ok(Progress(lastStudied, reviewed, learnedToday, learnedTotal));
  }
}
