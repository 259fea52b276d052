/**
 * Stable descending sort by an integer key, the behaviour of JavaScript's
 * `Array.prototype.sort` with a comparator `(a, b) => key(b) - key(a)`.
 */
module Sorting {

  predicate SortedByKey<T>(s: seq<T>, key: T -> int) {
    forall i, j :: 0 <= i < j < |s| ==> key(s[i]) >= key(s[j])
  }

  /** x goes in front of the first element whose key is smaller, so equal keys keep their order. */
  function InsertByKey<T>(x: T, s: seq<T>, key: T -> int): (r: seq<T>)
    ensures |r| == |s| + 1
  {
    if s == [] || key(x) >= key(s[0]) then [x] + s else [s[0]] + InsertByKey(x, s[1..], key)
  }

  function SortByKey<T>(s: seq<T>, key: T -> int): (r: seq<T>)
    ensures |r| == |s|
  {
    if s == [] then [] else InsertByKey(s[0], SortByKey(s[1..], key), key)
  }

  lemma {:induction false} InsertByKeyPermutes<T>(x: T, s: seq<T>, key: T -> int)
    ensures multiset(InsertByKey(x, s, key)) == multiset(s) + multiset{x}
  {
    if s != [] && key(x) < key(s[0]) {
      InsertByKeyPermutes(x, s[1..], key);
      assert s == [s[0]] + s[1..];
    }
  }

  lemma {:induction false} InsertByKeySorted<T>(x: T, s: seq<T>, key: T -> int)
    requires SortedByKey(s, key)
    ensures SortedByKey(InsertByKey(x, s, key), key)
    ensures forall k | 0 <= k < |InsertByKey(x, s, key)| ::
      key(InsertByKey(x, s, key)[k]) == key(x) || exists m :: 0 <= m < |s| && InsertByKey(x, s, key)[k] == s[m]
  {
    if s != [] && key(x) < key(s[0]) {
      InsertByKeySorted(x, s[1..], key);
      var t := InsertByKey(x, s[1..], key);
      forall k | 0 <= k < |t| ensures key(t[k]) <= key(s[0]) {
        if key(t[k]) != key(x) {
          var m :| 0 <= m < |s[1..]| && t[k] == s[1..][m];
        }
      }
      forall k | 0 <= k < |t| ensures key(t[k]) == key(x) || exists m :: 0 <= m < |s| && t[k] == s[m] {
        if key(t[k]) != key(x) {
          var m :| 0 <= m < |s[1..]| && t[k] == s[1..][m];
          assert t[k] == s[m + 1];
        }
      }
      assert InsertByKey(x, s, key) == [s[0]] + t;
    }
  }

  /** The sort result is ordered by key and is a permutation of the input. */
  lemma {:induction false} SortByKeyCorrect<T>(s: seq<T>, key: T -> int)
    ensures SortedByKey(SortByKey(s, key), key)
    ensures multiset(SortByKey(s, key)) == multiset(s)
  {
    if s != [] {
      SortByKeyCorrect(s[1..], key);
      InsertByKeySorted(s[0], SortByKey(s[1..], key), key);
      InsertByKeyPermutes(s[0], SortByKey(s[1..], key), key);
      assert s == [s[0]] + s[1..];
    }
  }

  /** Sorting an already ordered sequence changes nothing. */
  lemma {:induction false} SortSortedIsIdentity<T>(s: seq<T>, key: T -> int)
    requires SortedByKey(s, key)
    ensures SortByKey(s, key) == s
  {
    if s != [] {
      assert SortedByKey(s[1..], key);
      SortSortedIsIdentity(s[1..], key);
    }
  }

  function Identity(x: int): int { x }

  /** The sort of plain numbers, descending. */
  function SortDesc(s: seq<int>): (r: seq<int>)
    ensures |r| == |s|
  {
    SortByKey(s, Identity)
  }

  predicate SortedDesc(s: seq<int>) {
    forall i, j :: 0 <= i < j < |s| ==> s[i] >= s[j]
  }

  lemma SortDescCorrect(s: seq<int>)
    ensures SortedDesc(SortDesc(s)) && multiset(SortDesc(s)) == multiset(s)
  {
    SortByKeyCorrect(s, Identity);
    assert forall i, j :: 0 <= i < j < |SortDesc(s)| ==> Identity(SortDesc(s)[i]) >= Identity(SortDesc(s)[j]);
  }

  /** Two descending sequences with the same elements are equal. */
  lemma {:induction false} SortedDescUnique(a: seq<int>, b: seq<int>)
    requires SortedDesc(a) && SortedDesc(b) && multiset(a) == multiset(b)
    ensures a == b
    decreases |a|
  {
    MultisetSameLength(a, b);
    if a != [] {
      SortedDescSameHead(a, b);
      DropSameHead(a, b);
      assert SortedDesc(a[1..]) && SortedDesc(b[1..]);
      SortedDescUnique(a[1..], b[1..]);
      assert a == [a[0]] + a[1..] && b == [b[0]] + b[1..];
    }
  }

  lemma MultisetSameLength<T>(a: seq<T>, b: seq<T>)
    requires multiset(a) == multiset(b)
    ensures |a| == |b|
  {
    assert |a| == |multiset(a)|;
    assert |b| == |multiset(b)|;
  }

  lemma SortedDescSameHead(a: seq<int>, b: seq<int>)
    requires SortedDesc(a) && SortedDesc(b) && multiset(a) == multiset(b)
    requires a != [] && b != []
    ensures a[0] == b[0]
  {
    assert a[0] in multiset(b) && b[0] in multiset(a);
    var i :| 0 <= i < |b| && b[i] == a[0];
    var j :| 0 <= j < |a| && a[j] == b[0];
  }

  lemma DropSameHead<T>(a: seq<T>, b: seq<T>)
    requires a != [] && b != [] && a[0] == b[0] && multiset(a) == multiset(b)
    ensures multiset(a[1..]) == multiset(b[1..])
  {
    assert a == [a[0]] + a[1..] && b == [b[0]] + b[1..];
    assert multiset(a) == multiset{a[0]} + multiset(a[1..]);
    assert multiset(b) == multiset{a[0]} + multiset(b[1..]);
    forall x ensures multiset(a[1..])[x] == multiset(b[1..])[x] {
      assert multiset(a)[x] == multiset(b)[x];
    }
  }
}
