/** The flash-card application's session state: the score-ordered cards of
    the working project, the project's card dictionary and the card shown
    as the working card, with the two rules that change them. */
module FlashSession {
  import opened Wrappers
  import opened FlashCards

  /** How `next_card` chooses. */
  datatype Mode = Revision | Quiz

  /** A card due for revision: not learned, not the card just shown, and
      never revised or last revised before today. */
  predicate Due(c: Card, actual: string, today: int) {
    && !c.learned
    && c.name != actual
    && (c.lastRevision.None? || c.lastRevision.value < today)
  }

  /** The first due card, if any. */
  function FirstDue(cards: seq<Card>, actual: string, today: int): (r: Option<nat>)
    ensures r.None? <==> forall j :: 0 <= j < |cards| ==> !Due(cards[j], actual, today)
    ensures r.Some? ==> r.value < |cards| && Due(cards[r.value], actual, today)
    ensures r.Some? ==> forall j :: 0 <= j < r.value ==> !Due(cards[j], actual, today)
  {
    if cards == [] then None
    else if Due(cards[0], actual, today) then Some(0)
    else
      var rest := FirstDue(cards[1..], actual, today);
      assert forall j :: 1 <= j < |cards| ==> cards[j] == cards[1..][j - 1];
      if rest.None? then None else Some(rest.value + 1)
  }

  /** The name of the card revision mode picks: the first due card's. */
  function RevisionPick(cards: seq<Card>, actual: string, today: int): (r: Option<string>)
    ensures r.None? <==> forall j :: 0 <= j < |cards| ==> !Due(cards[j], actual, today)
    ensures r.Some? ==> r.value != actual && exists j :: 0 <= j < |cards| && cards[j].name == r.value && !cards[j].learned
  {
    var i := FirstDue(cards, actual, today);
    if i.None? then None else Some(cards[i.value].name)
  }

  /** The first card carrying a name (or the end of the list). */
  function FirstNamed(cards: seq<Card>, name: string): (i: nat)
    ensures i <= |cards|
    ensures forall j :: 0 <= j < i ==> cards[j].name != name
    ensures i < |cards| ==> cards[i].name == name
  {
    if cards == [] || cards[0].name == name then 0 else 1 + FirstNamed(cards[1..], name)
  }

  /** The list without its first card of that name. */
  function RemoveFirstNamed(cards: seq<Card>, name: string): seq<Card> {
    var i := FirstNamed(cards, name);
    if i == |cards| then cards else cards[..i] + cards[i + 1..]
  }

  /** Removing the first card of a name takes out exactly that card, keeps
      the others in order, and leaves a list without the name unchanged. */
  lemma RemoveFirstNamedFacts(cards: seq<Card>, name: string)
    ensures var i := FirstNamed(cards, name); var r := RemoveFirstNamed(cards, name);
      && (i == |cards| ==> r == cards)
      && (i < |cards| ==>
            && |r| == |cards| - 1
            && multiset(cards) == multiset(r) + multiset{cards[i]}
            && (forall j :: 0 <= j < i ==> r[j] == cards[j])
            && (forall j :: i <= j < |r| ==> r[j] == cards[j + 1]))
  {
    var i := FirstNamed(cards, name);
    if i < |cards| {
      var r := cards[..i] + cards[i + 1..];
      assert multiset(cards) == multiset(r) + multiset{cards[i]} by {
        assert cards == cards[..i] + [cards[i]] + cards[i + 1..];
      }
    }
  }

  class Session {
    /** `CARDS`: the working project's cards, by non-increasing score. */
    var cards: seq<Card>
    /** The working project's card dictionary. */
    var project: map<string, Card>
    /** The card the cards panel shows as selected. */
    var working: Option<string>

    constructor (cards: seq<Card>, project: map<string, Card>)
      ensures this.cards == cards && this.project == project && working.None?
    {
      this.cards := cards;
      this.project := project;
      working := None;
    }

    /** `next_card`. In revision mode the first due card becomes the working
        card, or none if no card is due. In quiz mode cards are drawn at
        random until one has a name other than `actual`: an empty list
        clears the working card, and a list holding only cards named
        `actual` makes the draw loop forever (reported as `loops`, with
        nothing changed). */
    method NextCard(mode: Mode, actual: string, today: int) returns (loops: bool)
      modifies this
      ensures cards == old(cards) && project == old(project)
      ensures mode == Revision ==> !loops && working == RevisionPick(cards, actual, today)
      ensures mode == Quiz && cards == [] ==> !loops && working.None?
      ensures mode == Quiz && cards != [] ==>
        && (loops <==> forall j :: 0 <= j < |cards| ==> cards[j].name == actual)
        && (loops ==> working == old(working))
        && (!loops ==> exists j :: 0 <= j < |cards| && working == Some(cards[j].name) && cards[j].name != actual)
    {
      loops := false;
      if mode == Revision {
        var i := 0;
        while i < |cards|
          invariant i <= |cards|
          invariant forall j :: 0 <= j < i ==> !Due(cards[j], actual, today)
        {
          var c := cards[i];
          if !c.learned {
            if c.name != actual && c.lastRevision.None? {
              working := Some(c.name);
              return;
            }
            if c.name != actual && c.lastRevision.value < today {
              working := Some(c.name);
              return;
            }
          }
          i := i + 1;
        }
        working := None;
      } else if cards == [] {
        working := None;
      } else if exists j :: 0 <= j < |cards| && cards[j].name != actual {
        var j :| 0 <= j < |cards| && cards[j].name != actual;
        working := Some(cards[j].name);
      } else {
        loops := true;
      }
    }

    /** `delete_card`: deleting a name the project lacks raises KeyError
        before anything changes; otherwise the name leaves the dictionary,
        the first card of that name leaves the list, and the working card
        is cleared. */
    method DeleteCard(name: string) returns (r: Result<(), string>)
      modifies this
      ensures name !in old(project) ==> r.Err? && cards == old(cards) && project == old(project) && working == old(working)
      ensures name in old(project) ==>
        && r.Ok?
        && project == old(project) - {name}
        && cards == RemoveFirstNamed(old(cards), name)
        && working.None?
    {
      if name !in project {
        return Err(name);
      }
      project := project - {name};
      var i := 0;
      while i < |cards|
        invariant i <= |cards| && cards == old(cards)
        invariant forall j :: 0 <= j < i ==> cards[j].name != name
      {
        if cards[i].name == name {
          cards := cards[..i] + cards[i + 1..];
          break;
        }
        i := i + 1;
      }
      working := None;
      return Ok(());
    }
  }
}
