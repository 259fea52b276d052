/**
 * The k-element selections of a sequence, in the order the recursive
 * `combine(start, combo)` of the hand evaluator produces them: positions taken
 * in increasing order, the selections that contain position i listed before
 * those that skip it.
 */
module Combinatorics {

  /** The selections that extend `combo` with elements at positions start.. */
  function Combine<T>(arr: seq<T>, size: nat, start: nat, combo: seq<T>): seq<seq<T>>
    requires start <= |arr|
    decreases |arr| - start, 1
  {
    if |combo| == size then [combo] else CombineFrom(arr, size, start, combo)
  }

  /** The body of the `for (i = start; i < arr.length; i++)` loop, from position i on. */
  function CombineFrom<T>(arr: seq<T>, size: nat, i: nat, combo: seq<T>): seq<seq<T>>
    requires i <= |arr|
    decreases |arr| - i, 0
  {
    if i == |arr| then []
    else Combine(arr, size, i + 1, combo + [arr[i]]) + CombineFrom(arr, size, i + 1, combo)
  }

  function Combinations<T>(arr: seq<T>, size: nat): seq<seq<T>> {
    Combine(arr, size, 0, [])
  }

  /**
   * getCombinations: the recursion pushes each finished selection onto a shared
   * result list; here the list is threaded through and returned.
   */
  method GetCombinations<T>(arr: seq<T>, size: nat) returns (result: seq<seq<T>>)
    ensures result == Combinations(arr, size)
    ensures |result| == Binomial(|arr|, size)
    ensures forall c | c in result :: |c| == size && multiset(c) <= multiset(arr)
  {
    result := CombineInto(arr, size, 0, [], []);
    CombinationsCount(arr, size);
    CombinationsAreSelections(arr, size);
  }

  method CombineInto<T>(arr: seq<T>, size: nat, start: nat, combo: seq<T>, result: seq<seq<T>>)
    returns (out: seq<seq<T>>)
    requires start <= |arr|
    ensures out == result + Combine(arr, size, start, combo)
    decreases |arr| - start
  {
    if |combo| == size {
      return result + [combo];
    }
    out := result;
    var current := combo;
    for i := start to |arr|
      invariant current == combo
      invariant out + CombineFrom(arr, size, i, combo) == result + CombineFrom(arr, size, start, combo)
    {
      current := current + [arr[i]];
      out := CombineInto(arr, size, i + 1, current, out);
      current := current[..|current| - 1];
    }
  }

  function Binomial(n: nat, k: nat): nat {
    if k == 0 then 1 else if n == 0 then 0 else Binomial(n - 1, k - 1) + Binomial(n - 1, k)
  }

  lemma {:induction false} CombineCount<T>(arr: seq<T>, size: nat, start: nat, combo: seq<T>)
    requires start <= |arr| && |combo| <= size
    ensures |Combine(arr, size, start, combo)| == Binomial(|arr| - start, size - |combo|)
    decreases |arr| - start, 1
  {
    if |combo| < size {
      CombineFromCount(arr, size, start, combo);
    }
  }

  lemma {:induction false} CombineFromCount<T>(arr: seq<T>, size: nat, i: nat, combo: seq<T>)
    requires i <= |arr| && |combo| < size
    ensures |CombineFrom(arr, size, i, combo)| == Binomial(|arr| - i, size - |combo|)
    decreases |arr| - i, 0
  {
    if i < |arr| {
      CombineCount(arr, size, i + 1, combo + [arr[i]]);
      CombineFromCount(arr, size, i + 1, combo);
    }
  }

  /** There are C(n, k) selections. */
  lemma CombinationsCount<T>(arr: seq<T>, size: nat)
    ensures |Combinations(arr, size)| == Binomial(|arr|, size)
  {
    CombineCount(arr, size, 0, []);
  }

  /** Seven cards give 21 five-card hands. */
  lemma SevenChooseFive<T>(arr: seq<T>)
    requires |arr| == 7
    ensures |Combinations(arr, 5)| == 21
  {
    CombinationsCount(arr, 5);
    BinomialSmall();
  }

  lemma BinomialSmall()
    ensures Binomial(5, 5) == 1 && Binomial(6, 5) == 6 && Binomial(7, 5) == 21
  {
    BinomialLow();
    assert Binomial(3, 3) == 1 && Binomial(4, 3) == 4 && Binomial(5, 3) == 10;
    assert Binomial(6, 3) == 20;
    assert Binomial(4, 4) == 1 && Binomial(5, 4) == 5 && Binomial(6, 4) == 15;
    assert Binomial(5, 5) == 1 && Binomial(6, 5) == 6;
  }

  lemma BinomialLow()
    ensures Binomial(2, 2) == 1 && Binomial(3, 2) == 3 && Binomial(4, 2) == 6
    ensures Binomial(5, 2) == 10 && Binomial(6, 2) == 15
  {
    assert Binomial(1, 1) == 1 && Binomial(2, 1) == 2 && Binomial(3, 1) == 3;
    assert Binomial(4, 1) == 4 && Binomial(5, 1) == 5 && Binomial(6, 1) == 6;
  }

  /** The positions p picks are strictly increasing and below n. */
  predicate Increasing(p: seq<nat>, n: nat) {
    (forall j :: 0 <= j < |p| ==> p[j] < n) && (forall j, l :: 0 <= j < l < |p| ==> p[j] < p[l])
  }

  function Pick<T>(arr: seq<T>, p: seq<nat>): (r: seq<T>)
    requires forall j :: 0 <= j < |p| ==> p[j] < |arr|
    ensures |r| == |p| && forall j :: 0 <= j < |p| ==> r[j] == arr[p[j]]
  {
    if p == [] then [] else [arr[p[0]]] + Pick(arr, p[1..])
  }

  lemma {:induction false} CombineSelections<T>(arr: seq<T>, size: nat, start: nat, combo: seq<T>)
    requires start <= |arr| && |combo| <= size
    ensures forall c | c in Combine(arr, size, start, combo) ::
      |c| == size && c[..|combo|] == combo && multiset(c[|combo|..]) <= multiset(arr[start..])
    decreases |arr| - start, 1
  {
    if |combo| < size {
      CombineFromSelections(arr, size, start, combo);
    } else {
      assert combo[|combo|..] == [];
    }
  }

  lemma {:induction false} CombineFromSelections<T>(arr: seq<T>, size: nat, i: nat, combo: seq<T>)
    requires i <= |arr| && |combo| < size
    ensures forall c | c in CombineFrom(arr, size, i, combo) ::
      |c| == size && c[..|combo|] == combo && multiset(c[|combo|..]) <= multiset(arr[i..])
    decreases |arr| - i, 0
  {
    if i < |arr| {
      var ext := combo + [arr[i]];
      CombineSelections(arr, size, i + 1, ext);
      CombineFromSelections(arr, size, i + 1, combo);
      assert arr[i..] == [arr[i]] + arr[i + 1..];
      forall c | c in Combine(arr, size, i + 1, ext)
        ensures |c| == size && c[..|combo|] == combo && multiset(c[|combo|..]) <= multiset(arr[i..])
      {
        assert c[..|combo|] == c[..|ext|][..|combo|];
        assert c[|combo|..] == [arr[i]] + c[|ext|..];
      }
    }
  }

  /** Every selection has `size` elements drawn from the input. */
  lemma CombinationsAreSelections<T>(arr: seq<T>, size: nat)
    ensures forall c | c in Combinations(arr, size) :: |c| == size && multiset(c) <= multiset(arr)
  {
    CombineSelections(arr, size, 0, []);
    forall c | c in Combinations(arr, size) ensures multiset(c) <= multiset(arr) {
      assert c[0..] == c;
      assert arr[0..] == arr;
    }
  }

  lemma {:induction false} CombineComplete<T>(arr: seq<T>, size: nat, start: nat, combo: seq<T>, p: seq<nat>)
    requires start <= |arr| && |combo| + |p| == size
    requires Increasing(p, |arr|) && (p != [] ==> start <= p[0])
    ensures combo + Pick(arr, p) in Combine(arr, size, start, combo)
    decreases |arr| - start, 1
  {
    if p == [] {
      assert combo + Pick(arr, p) == combo;
    } else {
      IncreasingTail(p, |arr|);
      CombineComplete(arr, size, p[0] + 1, combo + [arr[p[0]]], p[1..]);
      CombineCompleteStep(arr, size, start, combo, p);
    }
  }

  /** Choosing position p[0] first: the rest of the choice, found after it, is found from `start`. */
  lemma CombineCompleteStep<T>(arr: seq<T>, size: nat, start: nat, combo: seq<T>, p: seq<nat>)
    requires p != [] && start <= p[0] && |combo| + |p| == size
    requires forall j :: 0 <= j < |p| ==> p[j] < |arr|
    requires combo + [arr[p[0]]] + Pick(arr, p[1..]) in Combine(arr, size, p[0] + 1, combo + [arr[p[0]]])
    ensures combo + Pick(arr, p) in Combine(arr, size, start, combo)
  {
    var c := combo + [arr[p[0]]] + Pick(arr, p[1..]);
    CombineFromContains(arr, size, start, p[0], combo, c);
    CombineFromIn(arr, size, start, combo, c);
    assert c == combo + Pick(arr, p) by {
      PickCons(arr, p);
    }
  }

  lemma CombineFromIn<T>(arr: seq<T>, size: nat, start: nat, combo: seq<T>, c: seq<T>)
    requires start <= |arr| && |combo| < size && c in CombineFrom(arr, size, start, combo)
    ensures c in Combine(arr, size, start, combo)
  {
  }

  lemma IncreasingTail(p: seq<nat>, n: nat)
    requires p != [] && Increasing(p, n)
    ensures Increasing(p[1..], n) && p[0] < n
    ensures p[1..] != [] ==> p[0] + 1 <= p[1..][0]
  {
  }

  lemma PickCons<T>(arr: seq<T>, p: seq<nat>)
    requires p != [] && forall j :: 0 <= j < |p| ==> p[j] < |arr|
    ensures Pick(arr, p) == [arr[p[0]]] + Pick(arr, p[1..])
  {
  }

  lemma {:induction false} CombineFromContains<T>(arr: seq<T>, size: nat, j: nat, i: nat, combo: seq<T>, c: seq<T>)
    requires j <= i < |arr| && c in Combine(arr, size, i + 1, combo + [arr[i]])
    ensures c in CombineFrom(arr, size, j, combo)
    decreases i - j
  {
    if j < i {
      CombineFromContains(arr, size, j + 1, i, combo, c);
    }
  }

  /** Every choice of `size` increasing positions is among the selections. */
  lemma CombinationsComplete<T>(arr: seq<T>, size: nat, p: seq<nat>)
    requires |p| == size && Increasing(p, |arr|)
    ensures Pick(arr, p) in Combinations(arr, size)
  {
    CombineComplete(arr, size, 0, [], p);
    assert [] + Pick(arr, p) == Pick(arr, p);
  }

  lemma {:induction false} BinomialPositive(n: nat, k: nat)
    requires k <= n
    ensures Binomial(n, k) > 0
  {
    if k > 0 {
      BinomialPositive(n - 1, k - 1);
    }
  }
}
