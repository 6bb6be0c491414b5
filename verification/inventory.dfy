/** The inventory: resources grouped by category, each category holding its
    resources in the order they were added. A category exists exactly while
    it holds at least one resource. */
module InventoryStore {
  import opened Wrappers
  import opened InventoryResource

  type Items = map<string, seq<Resource>>

  /** Every category is non-empty and holds resources of that category
      only. */
  predicate ItemsValid(items: Items) {
    forall c :: c in items ==>
      && items[c] != []
      && forall j :: 0 <= j < |items[c]| ==> items[c][j].Category() == c
  }

  /** `append`: the resource joins the end of its category, which is
      created if it did not exist. */
  function Appended(items: Items, x: Resource): (r: Items)
    ensures r.Keys == items.Keys + {x.Category()}
    ensures forall c :: c in items && c != x.Category() ==> r[c] == items[c]
    ensures var c := x.Category(); var before := if c in items then items[c] else [];
      |r[c]| == |before| + 1 && r[c][..|before|] == before && r[c][|before|] == x
  {
    var c := x.Category();
    items[c := (if c in items then items[c] else []) + [x]]
  }

  /** The position of the first resource equal to `x`, or the length.
      Resources compare with `==` exactly when their specs are the same
      (`EqualIffSameSpec`), so the search compares specs. */
  function FirstEqual(s: seq<Resource>, x: Resource): (i: nat)
    ensures i <= |s|
    ensures forall j :: 0 <= j < i ==> s[j].spec != x.spec
    ensures i < |s| ==> s[i].spec == x.spec
  {
    if s == [] || s[0].spec == x.spec then 0 else 1 + FirstEqual(s[1..], x)
  }

  /** `remove`: the first resource of `x`'s category equal to `x` leaves
      the inventory and is returned, and a category left empty is dropped;
      with no such resource nothing changes. */
  function Removed(items: Items, x: Resource): (Items, Option<Resource>) {
    var c := x.Category();
    if c !in items then (items, None)
    else
      var s := items[c];
      var i := FirstEqual(s, x);
      if i == |s| then (items, None)
      else
        var rest := s[..i] + s[i + 1..];
        (if rest == [] then items - {c} else items[c := rest], Some(s[i]))
  }

  /** Adding keeps the inventory's invariant. */
  lemma AppendedValid(items: Items, x: Resource)
    requires ItemsValid(items)
    ensures ItemsValid(Appended(items, x))
  {
    var r: Items, c := Appended(items, x), x.Category();
    forall d | d in r
      ensures r[d] != [] && forall j :: 0 <= j < |r[d]| ==> r[d][j].Category() == d
    {
      if d == c {
        var old_ := if c in items then items[c] else [];
        assert r[d] == old_ + [x];
        assert forall j :: 0 <= j < |old_| ==> old_[j].Category() == c;
      }
    }
  }

  /** Removing keeps the inventory's invariant. */
  lemma RemovedValid(items: Items, x: Resource)
    requires ItemsValid(items)
    ensures ItemsValid(Removed(items, x).0)
  {
    var c := x.Category();
    if c in items {
      var s := items[c];
      var i := FirstEqual(s, x);
      if i < |s| {
        DeleteAt(s, i);
      }
    }
  }

  /** Removing finds nothing exactly when no resource of the category is
      equal to `x`; what it returns is equal to `x` and was in the
      inventory, and exactly one resource leaves. */
  lemma RemovedFacts(items: Items, x: Resource)
    ensures var (r, found) := Removed(items, x); var c := x.Category();
      && (found.None? <==> c !in items || forall j :: 0 <= j < |items[c]| ==> items[c][j].spec != x.spec)
      && (found.None? ==> r == items)
      && (found.Some? ==>
            && found.value.spec == x.spec
            && c in items
            && multiset(items[c]) == multiset(if c in r then r[c] else []) + multiset{found.value}
            && forall d :: d != c ==> (d in r <==> d in items) && (d in r ==> r[d] == items[d]))
  {
    var c := x.Category();
    if c in items {
      var s := items[c];
      var i := FirstEqual(s, x);
      if i < |s| {
        RemovedAt(items, x, s, i);
      }
    }
  }

  /** The case where the first equal resource sits at index `i`. */
  lemma RemovedAt(items: Items, x: Resource, s: seq<Resource>, i: nat)
    requires x.Category() in items && s == items[x.Category()]
    requires i == FirstEqual(s, x) && i < |s|
    ensures var (r, found) := Removed(items, x); var c := x.Category();
      && found == Some(s[i])
      && multiset(s) == multiset(if c in r then r[c] else []) + multiset{s[i]}
      && forall d :: d != c ==> (d in r <==> d in items) && (d in r ==> r[d] == items[d])
  {
    DeleteAt(s, i);
  }

  /** Deleting index `i` takes exactly `s[i]` out of the multiset. */
  lemma DeleteAt(s: seq<Resource>, i: nat)
    requires i < |s|
    ensures multiset(s) == multiset(s[..i] + s[i + 1..]) + multiset{s[i]}
    ensures forall y :: y in s[..i] + s[i + 1..] ==> y in s
  {
    assert s == s[..i] + [s[i]] + s[i + 1..];
  }

  /** Removing what was just added gives back a resource equal to it. */
  lemma {:induction false} RemoveAfterAppend(items: Items, x: Resource)
    ensures Removed(Appended(items, x), x).1.Some?
    ensures Removed(Appended(items, x), x).1.value.spec == x.spec
  {
    var c := x.Category();
    var a := Appended(items, x);
    var before := if c in items then items[c] else [];
    assert a[c] == before + [x];
    FirstEqualAppend(before, x);
  }

  /** If the inventory held no resource equal to the one added, removing it
      again gives back the added resource itself and the inventory as it
      was. */
  lemma {:induction false} RemoveAfterAppendRestores(items: Items, x: Resource)
    requires ItemsValid(items)
    requires x.Category() in items ==> forall j :: 0 <= j < |items[x.Category()]| ==> items[x.Category()][j].spec != x.spec
    ensures Removed(Appended(items, x), x) == (items, Some(x))
  {
    var c := x.Category();
    var a := Appended(items, x);
    var before := if c in items then items[c] else [];
    assert FirstEqual(a[c], x) == |before| by {
      assert a[c] == before + [x];
      FirstEqualAppend(before, x);
    }
    assert a[c][..|before|] + a[c][|before| + 1..] == before by {
      assert a[c] == before + [x];
    }
    if c in items {
      assert a[c := before] == items;
    } else {
      assert a - {c} == items;
    }
  }

  /** In a list ending with `x`, an element equal to `x` is always found,
      at the end if not before. */
  lemma {:induction false} FirstEqualAppend(s: seq<Resource>, x: Resource)
    ensures FirstEqual(s + [x], x) < |s + [x]|
    ensures (forall j :: 0 <= j < |s| ==> s[j].spec != x.spec) ==> FirstEqual(s + [x], x) == |s|
    decreases |s|
  {
    if s != [] && s[0].spec != x.spec {
      assert (s + [x])[1..] == s[1..] + [x];
      FirstEqualAppend(s[1..], x);
    }
  }

  /** The resources a category list holds that have the components. */
  function Matching(s: seq<Resource>, components: seq<(string, AttrVal)>): (r: seq<Resource>)
    reads set x | x in s
    ensures |r| <= |s|
    ensures forall x :: x in r ==> x in s && x.Has(components)
    ensures forall x :: x in s && x.Has(components) ==> x in r
  {
    if s == [] then []
    else
      var rest := Matching(s[1..], components);
      if s[0].Has(components) then [s[0]] + rest else rest
  }

  /** With no components every resource matches, in its order. */
  lemma {:induction false} MatchingNothing(s: seq<Resource>)
    ensures Matching(s, []) == s
  {
    if s != [] {
      MatchingNothing(s[1..]);
    }
  }

  class Inventory {
    var items: Items

    ghost predicate Valid() reads this {
      ItemsValid(items)
    }

    /** All resources the inventory holds. */
    ghost function Resources(): set<Resource> reads this {
      set c, x | c in items && x in items[c] :: x
    }

    constructor ()
      ensures items == map[] && Valid()
    {
      items := map[];
    }

    /** `items` and `catalog`: a read-only copy of every category's list. */
    function Items(): Items reads this {
      items
    }

    /** `search`: every category, each with the resources that have all the
        given components, in order. */
    function Search(components: seq<(string, AttrVal)>): (r: Items)
      reads this, Resources()
      ensures r.Keys == items.Keys
      ensures forall c :: c in r ==> r[c] == Matching(items[c], components)
    {
      map c | c in items :: Matching(items[c], components)
    }

    /** Searching for nothing lists the whole inventory. */
    lemma SearchNothing()
      ensures Search([]) == Items()
    {
      forall c | c in items ensures Matching(items[c], []) == items[c] {
        MatchingNothing(items[c]);
      }
    }

    /** `append`. */
    method Append(x: Resource)
      requires Valid()
      modifies this
      ensures items == Appended(old(items), x) && Valid()
    {
      var c := x.Category();
      var list := if c in items then items[c] else [];
      items := items[c := list + [x]];
      AppendedValid(old(items), x);
    }

    /** `remove`: scans `x`'s category for the first equal resource. */
    method Remove(x: Resource) returns (r: Option<Resource>)
      requires Valid()
      modifies this
      ensures (items, r) == Removed(old(items), x) && Valid()
    {
      RemovedValid(items, x);
      var c := x.Category();
      if c !in items {
        return None;
      }
      var s := items[c];
      var i := 0;
      while i < |s|
        invariant i <= FirstEqual(s, x) && items == old(items)
      {
        var same := Equal(s[i].spec, x.spec);
        assert same == (s[i].spec == x.spec) by {
          EqualIffSameSpec(s[i].spec, x.spec);
        }
        if same {
          assert FirstEqual(s, x) == i;
          var rest := s[..i] + s[i + 1..];
          if rest == [] {
            items := items - {c};
          } else {
            items := items[c := rest];
          }
          return Some(s[i]);
        }
        i := i + 1;
      }
      return None;
    }
  }
}
