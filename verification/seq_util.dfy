/** Sequence facts shared by several modules. */
module SeqUtil {

  /** No element occurs twice. */
  predicate Distinct<T(==)>(s: seq<T>) {
    forall i, j :: 0 <= i < j < |s| ==> s[i] != s[j]
  }

  /** In a sequence without repetition every element occurs once. */
  lemma {:induction false} DistinctMultiset<T>(s: seq<T>)
    requires Distinct(s)
    ensures forall x :: multiset(s)[x] == if x in s then 1 else 0
  {
    if s != [] {
      DistinctMultiset(s[1..]);
      assert s == [s[0]] + s[1..];
      assert s[0] !in s[1..];
    }
  }

  /** Deleting index `j` of a sequence without repetition removes exactly
      `s[j]` and leaves a sequence without repetition. */
  lemma DeleteDistinct<T>(s: seq<T>, j: nat)
    requires Distinct(s) && j < |s|
    ensures Distinct(s[..j] + s[j + 1..])
    ensures forall x :: x in s[..j] + s[j + 1..] <==> x in s && x != s[j]
  {
    var t := s[..j] + s[j + 1..];
    assert forall i :: 0 <= i < |t| ==> t[i] == s[if i < j then i else i + 1];
    forall x ensures x in t <==> x in s && x != s[j] {
      if x in s && x != s[j] {
        var i :| 0 <= i < |s| && s[i] == x;
        assert t[if i < j then i else i - 1] == x;
      }
    }
  }
}
