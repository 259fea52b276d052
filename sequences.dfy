/** The JavaScript array reads the engine relies on. */
module Sequences {

  /** `Array.prototype.indexOf`: the first position holding x, or -1. */
  function IndexOf<T(==)>(s: seq<T>, x: T): (k: int)
    ensures -1 <= k < |s|
    ensures k == -1 <==> x !in s
    ensures k >= 0 ==> s[k] == x && x !in s[..k]
  {
    if s == [] then -1
    else if s[0] == x then 0
    else
      var k := IndexOf(s[1..], x);
      assert s[1..][..if k < 0 then 0 else k] == s[1..if k < 0 then 1 else k + 1];
      if k == -1 then -1 else k + 1
  }

  /** An integer array read where a missing entry (`undefined`) compares unequal to every value used. */
  function At(s: seq<int>, i: int): (x: int)
    ensures 0 <= i < |s| ==> x == s[i]
    ensures !(0 <= i < |s|) ==> x == 0
  {
    if 0 <= i < |s| then s[i] else 0
  }

  predicate Distinct<T(==)>(s: seq<T>) {
    forall i, j :: 0 <= i < j < |s| ==> s[i] != s[j]
  }

  lemma {:induction false} DistinctOnce<T>(s: seq<T>, x: T)
    requires Distinct(s)
    ensures multiset(s)[x] <= 1
  {
    if s != [] {
      var t := s[1..];
      assert s == [s[0]] + t;
      assert Distinct(t);
      DistinctOnce(t, x);
      if s[0] == x {
        assert forall j | 0 <= j < |t| :: t[j] == s[j + 1] != x;
      }
    }
  }
}
