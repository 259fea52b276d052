/**
 * Facts about the value buckets of a hand: their sizes are the value
 * multiplicities, they sum to the hand size, and sorted by the getHighCards
 * comparator they come out largest bucket first.
 */
module HandGroups {
  import opened Cards
  import opened Sorting
  import opened Sequences
  import opened HandRanking

  /** How many of the cards carry value v. */
  function Count(cards: seq<Card>, v: int): nat {
    multiset(Values(cards))[v]
  }

  function Sum(s: seq<int>): int {
    if s == [] then 0 else s[0] + Sum(s[1..])
  }

  lemma CountSnoc(cards: seq<Card>, v: int)
    requires cards != []
    ensures Count(cards, v) == Count(cards[..|cards| - 1], v) + (if cards[|cards| - 1].value == v then 1 else 0)
  {
    var init := cards[..|cards| - 1];
    var last := cards[|cards| - 1].value as int;
    assert Values(cards) == Values(init) + [last];
    assert multiset(Values(cards)) == multiset(Values(init)) + multiset{last};
  }

  lemma {:induction false} WithValueCount(cards: seq<Card>, v: int)
    ensures |WithValue(cards, v)| == Count(cards, v)
  {
    if cards != [] {
      WithValueCount(cards[..|cards| - 1], v);
      CountSnoc(cards, v);
    }
  }

  /** The hand size split by value, counting values from lo up to the ace. */
  function CountFrom(cards: seq<Card>, lo: int): int
    requires 2 <= lo <= 15
    decreases 15 - lo
  {
    if lo == 15 then 0 else Count(cards, lo) + CountFrom(cards, lo + 1)
  }

  /** The number of cards whose value is at least lo. */
  function NumAtLeast(cards: seq<Card>, lo: int): nat {
    if cards == [] then 0
    else NumAtLeast(cards[..|cards| - 1], lo) + (if cards[|cards| - 1].value >= lo then 1 else 0)
  }

  lemma {:induction false} NumAtLeastTwo(cards: seq<Card>)
    ensures NumAtLeast(cards, 2) == |cards|
  {
    if cards != [] {
      NumAtLeastTwo(cards[..|cards| - 1]);
    }
  }

  lemma {:induction false} CountFromSnoc(cards: seq<Card>, lo: int)
    requires cards != [] && 2 <= lo <= 15
    ensures CountFrom(cards, lo) == CountFrom(cards[..|cards| - 1], lo) + (if cards[|cards| - 1].value >= lo then 1 else 0)
    decreases 15 - lo
  {
    CountSnoc(cards, lo);
    if lo < 15 {
      CountFromSnoc(cards, lo + 1);
    }
  }

  lemma {:induction false} CountFromIsNumAtLeast(cards: seq<Card>, lo: int)
    requires 2 <= lo <= 15
    ensures CountFrom(cards, lo) == NumAtLeast(cards, lo)
  {
    if cards == [] {
      CountFromEmpty(lo);
    } else {
      CountFromSnoc(cards, lo);
      CountFromIsNumAtLeast(cards[..|cards| - 1], lo);
    }
  }

  lemma {:induction false} CountFromEmpty(lo: int)
    requires 2 <= lo <= 15
    ensures CountFrom([], lo) == 0
    decreases 15 - lo
  {
    if lo < 15 {
      CountFromEmpty(lo + 1);
    }
  }

  /** Every bucket is the cards of its value, and holds at least one card. */
  lemma {:induction false} EntriesFromMembers(cards: seq<Card>, lo: int)
    requires 2 <= lo <= 15
    ensures forall e | e in EntriesFrom(Groups(cards), lo) ::
      lo <= e.value && e.value in Values(cards) && e.cards == WithValue(cards, e.value) && |e.cards| >= 1
    decreases 15 - lo
  {
    if lo < 15 {
      EntriesFromMembers(cards, lo + 1);
      if lo in Values(cards) {
        WithValueCount(cards, lo);
      }
    }
  }

  /** Every value of the hand has its bucket. */
  lemma {:induction false} EntriesFromComplete(cards: seq<Card>, lo: int, w: Value)
    requires 2 <= lo <= w && w in Values(cards)
    ensures Group(w, WithValue(cards, w)) in EntriesFrom(Groups(cards), lo)
    decreases 15 - lo
  {
    if lo < w {
      EntriesFromComplete(cards, lo + 1, w);
    }
  }

  /** The buckets come out in strictly ascending value order. */
  lemma {:induction false} EntriesFromAscending(cards: seq<Card>, lo: int)
    requires 2 <= lo <= 15
    ensures forall i, j :: 0 <= i < j < |EntriesFrom(Groups(cards), lo)| ==>
      EntriesFrom(Groups(cards), lo)[i].value < EntriesFrom(Groups(cards), lo)[j].value
    decreases 15 - lo
  {
    if lo < 15 {
      EntriesFromMembers(cards, lo + 1);
      EntriesFromAscending(cards, lo + 1);
      var rest := EntriesFrom(Groups(cards), lo + 1);
      forall i | 0 <= i < |rest| ensures lo < rest[i].value {
        assert rest[i] in rest;
      }
    }
  }

  lemma {:induction false} SizesSum(cards: seq<Card>, lo: int)
    requires 2 <= lo <= 15
    ensures Sum(Sizes(EntriesFrom(Groups(cards), lo))) == CountFrom(cards, lo)
    decreases 15 - lo
  {
    if lo < 15 {
      SizesSum(cards, lo + 1);
      var rest := EntriesFrom(Groups(cards), lo + 1);
      WithValueCount(cards, lo);
      if lo in Values(cards) {
        var es := [Group(lo, WithValue(cards, lo))] + rest;
        assert EntriesFrom(Groups(cards), lo) == es;
        assert es[1..] == rest;
      } else {
        assert Count(cards, lo) == 0;
        assert EntriesFrom(Groups(cards), lo) == rest;
      }
    }
  }

  /** The bucket sizes add up to the number of cards. */
  lemma EntriesSizesSum(cards: seq<Card>)
    ensures Sum(Sizes(Entries(Groups(cards)))) == |cards|
  {
    SizesSum(cards, 2);
    CountFromIsNumAtLeast(cards, 2);
    NumAtLeastTwo(cards);
  }

  /** The buckets in the order of the getHighCards comparator. */
  function SortedGroups(cards: seq<Card>): seq<Group> {
    SortGroups(Entries(Groups(cards)))
  }

  lemma {:induction false} InsertSizes(x: Group, s: seq<Group>)
    ensures multiset(Sizes(InsertByKey(x, s, GroupKey))) == multiset{|x.cards|} + multiset(Sizes(s))
  {
    if s != [] && GroupKey(x) < GroupKey(s[0]) {
      InsertSizes(x, s[1..]);
      var t := InsertByKey(x, s[1..], GroupKey);
      assert InsertByKey(x, s, GroupKey) == [s[0]] + t;
      assert ([s[0]] + t)[1..] == t;
      assert Sizes(s) == [|s[0].cards|] + Sizes(s[1..]);
    } else {
      assert ([x] + s)[1..] == s;
    }
  }

  lemma {:induction false} InsertSum(x: Group, s: seq<Group>)
    ensures Sum(Sizes(InsertByKey(x, s, GroupKey))) == |x.cards| + Sum(Sizes(s))
  {
    if s != [] && GroupKey(x) < GroupKey(s[0]) {
      InsertSum(x, s[1..]);
      var t := InsertByKey(x, s[1..], GroupKey);
      assert InsertByKey(x, s, GroupKey) == [s[0]] + t;
      assert ([s[0]] + t)[1..] == t;
      assert Sizes(s) == [|s[0].cards|] + Sizes(s[1..]);
    } else {
      assert ([x] + s)[1..] == s;
    }
  }

  lemma {:induction false} SortSizes(s: seq<Group>)
    ensures multiset(Sizes(SortGroups(s))) == multiset(Sizes(s))
    ensures Sum(Sizes(SortGroups(s))) == Sum(Sizes(s))
  {
    if s != [] {
      SortSizes(s[1..]);
      InsertSizes(s[0], SortByKey(s[1..], GroupKey));
      InsertSum(s[0], SortByKey(s[1..], GroupKey));
      assert Sizes(s) == [|s[0].cards|] + Sizes(s[1..]);
    }
  }

  lemma SortedGroupsPermute(cards: seq<Card>)
    ensures multiset(SortedGroups(cards)) == multiset(Entries(Groups(cards)))
    ensures SortedByKey(SortedGroups(cards), GroupKey)
  {
    SortByKeyCorrect(Entries(Groups(cards)), GroupKey);
  }

  /** Each sorted bucket is the nonempty set of cards of one value of the hand. */
  lemma SortedGroupsMembers(cards: seq<Card>)
    ensures forall e | e in SortedGroups(cards) ::
      e.value in Values(cards) && e.cards == WithValue(cards, e.value) && |e.cards| == Count(cards, e.value) >= 1
  {
    SortedGroupsPermute(cards);
    EntriesFromMembers(cards, 2);
    forall e | e in SortedGroups(cards)
      ensures e.value in Values(cards) && e.cards == WithValue(cards, e.value) && |e.cards| == Count(cards, e.value) >= 1
    {
      assert e in multiset(Entries(Groups(cards)));
      WithValueCount(cards, e.value);
    }
  }

  /** Every value of the hand has its bucket among the sorted buckets. */
  lemma SortedGroupsComplete(cards: seq<Card>, w: Value)
    requires w in Values(cards)
    ensures Group(w, WithValue(cards, w)) in SortedGroups(cards)
  {
    SortedGroupsPermute(cards);
    EntriesFromComplete(cards, 2, w);
    assert Group(w, WithValue(cards, w)) in multiset(Entries(Groups(cards)));
  }

  lemma TwiceCounted<T>(s: seq<T>, i: int, j: int)
    requires 0 <= i < j < |s| && s[i] == s[j]
    ensures multiset(s)[s[i]] >= 2
  {
    assert s == s[..j] + s[j..];
    assert s[i] in s[..j];
    assert s[j] in s[j..];
    assert multiset(s) == multiset(s[..j]) + multiset(s[j..]);
  }

  /** No value has two buckets. */
  lemma SortedGroupsDistinct(cards: seq<Card>)
    ensures forall i, j :: 0 <= i < j < |SortedGroups(cards)| ==>
      SortedGroups(cards)[i].value != SortedGroups(cards)[j].value
  {
    var sg := SortedGroups(cards);
    var es := Entries(Groups(cards));
    SortedGroupsPermute(cards);
    SortedGroupsMembers(cards);
    EntriesFromAscending(cards, 2);
    assert Distinct(es);
    forall i, j | 0 <= i < j < |sg| ensures sg[i].value != sg[j].value {
      if sg[i].value == sg[j].value {
        assert sg[i] in sg && sg[j] in sg;
        TwiceCounted(sg, i, j);
        DistinctOnce(es, sg[i]);
        assert false;
      }
    }
  }

  /** The getHighCards order puts larger buckets first: their sizes descend. */
  lemma SortedGroupsSizesDescend(cards: seq<Card>)
    ensures SortedDesc(Sizes(SortedGroups(cards)))
  {
    var sg := SortedGroups(cards);
    SortedGroupsPermute(cards);
    forall i, j | 0 <= i < j < |sg| ensures |sg[i].cards| >= |sg[j].cards| {
      assert GroupKey(sg[i]) >= GroupKey(sg[j]);
    }
  }

  /** The sizes of the sorted buckets are the `counts` of evaluateFiveCards, and add up to the hand size. */
  lemma CountsAreSortedSizes(cards: seq<Card>)
    ensures Counts(Groups(cards)) == Sizes(SortedGroups(cards))
    ensures Sum(Counts(Groups(cards))) == |cards|
    ensures forall i :: 0 <= i < |Counts(Groups(cards))| ==> Counts(Groups(cards))[i] >= 1
  {
    var es := Entries(Groups(cards));
    var sg := SortedGroups(cards);
    SortSizes(es);
    SortDescCorrect(Sizes(es));
    SortedGroupsSizesDescend(cards);
    SortedDescUnique(Counts(Groups(cards)), Sizes(sg));
    EntriesSizesSum(cards);
    SortedGroupsMembers(cards);
    forall i | 0 <= i < |sg| ensures Sizes(sg)[i] >= 1 {
      assert sg[i] in sg;
    }
  }

  lemma {:induction false} SumAtLeastLength(p: seq<int>)
    requires forall i :: 0 <= i < |p| ==> p[i] >= 1
    ensures Sum(p) >= |p|
  {
    if p != [] {
      SumAtLeastLength(p[1..]);
    }
  }

  lemma {:induction false} SumOfFive(p: seq<int>)
    requires |p| <= 5
    ensures Sum(p) == At(p, 0) + At(p, 1) + At(p, 2) + At(p, 3) + At(p, 4)
  {
    if p != [] {
      SumOfFive(p[1..]);
      assert At(p[1..], 0) == At(p, 1) && At(p[1..], 1) == At(p, 2);
      assert At(p[1..], 2) == At(p, 3) && At(p[1..], 3) == At(p, 4);
    }
  }

  /** The ways five cards can split into buckets, largest first. */
  lemma Profiles(p: seq<int>)
    requires SortedDesc(p) && Sum(p) == 5 && forall i :: 0 <= i < |p| ==> p[i] >= 1
    ensures p == [5] || p == [4, 1] || p == [3, 2] || p == [3, 1, 1] || p == [2, 2, 1]
      || p == [2, 1, 1, 1] || p == [1, 1, 1, 1, 1]
  {
    SumAtLeastLength(p);
    SumOfFive(p);
    if |p| <= 2 {
      ShortProfiles(p);
    } else {
      LongProfiles(p);
    }
  }

  lemma ShortProfiles(p: seq<int>)
    requires 1 <= |p| <= 2 && SortedDesc(p) && forall i :: 0 <= i < |p| ==> p[i] >= 1
    requires At(p, 0) + At(p, 1) == 5
    ensures p == [5] || p == [4, 1] || p == [3, 2]
  {
    if |p| == 1 {
      assert p == [5];
    } else if p[0] == 4 {
      assert p == [4, 1];
    } else {
      assert p == [3, 2];
    }
  }

  lemma LongProfiles(p: seq<int>)
    requires 3 <= |p| <= 5 && SortedDesc(p) && forall i :: 0 <= i < |p| ==> p[i] >= 1
    requires At(p, 0) + At(p, 1) + At(p, 2) + At(p, 3) + At(p, 4) == 5
    ensures p == [3, 1, 1] || p == [2, 2, 1] || p == [2, 1, 1, 1] || p == [1, 1, 1, 1, 1]
  {
    assert p[0] >= p[1] >= p[2] >= 1;
    if |p| == 3 {
      if p[0] == 3 {
        assert p == [3, 1, 1];
      } else {
        assert p == [2, 2, 1];
      }
    } else if |p| == 4 {
      assert p == [2, 1, 1, 1];
    } else {
      assert p == [1, 1, 1, 1, 1];
    }
  }

  /** getHighCards with a pattern that has room for every bucket size takes every bucket's value, in bucket order. */
  lemma {:induction false} SelectAll(gs: seq<Group>, pattern: seq<int>)
    requires multiset(Sizes(gs)) <= multiset(pattern)
    ensures Select(gs, pattern).keys == GroupValues(gs)
  {
    if gs != [] {
      var c := |gs[0].cards|;
      SizesCons(gs);
      assert c in multiset(pattern);
      var j := IndexOf(pattern, c);
      StrikeOut(pattern, j);
      RoomAfterStrike(multiset(Sizes(gs[1..])), multiset(pattern), c);
      SelectAll(gs[1..], pattern[j := -1]);
    }
  }

  lemma SizesCons(gs: seq<Group>)
    requires gs != []
    ensures multiset(Sizes(gs)) == multiset{|gs[0].cards|} + multiset(Sizes(gs[1..]))
  {
    assert Sizes(gs) == [|gs[0].cards|] + Sizes(gs[1..]);
  }

  lemma StrikeOut(pattern: seq<int>, j: int)
    requires 0 <= j < |pattern|
    ensures multiset(pattern[j := -1]) == multiset(pattern) - multiset{pattern[j]} + multiset{-1}
  {
    assert pattern == pattern[..j] + [pattern[j]] + pattern[j + 1..];
    assert pattern[j := -1] == pattern[..j] + [-1] + pattern[j + 1..];
  }

  lemma RoomAfterStrike(rest: multiset<int>, room: multiset<int>, c: int)
    requires multiset{c} + rest <= room
    ensures rest <= room - multiset{c} + multiset{-1}
  {
    forall x ensures rest[x] <= (room - multiset{c} + multiset{-1})[x] {
      assert (multiset{c} + rest)[x] <= room[x];
    }
  }

  lemma WithValueMissing(cards: seq<Card>, v: int)
    requires v !in Values(cards)
    ensures WithValue(cards, v) == []
  {
    WithValueCount(cards, v);
  }

  lemma WithValueSnoc(cards: seq<Card>, c: Card, v: int)
    ensures WithValue(cards + [c], v) == WithValue(cards, v) + (if c.value == v then [c] else [])
  {
    var s := cards + [c];
    assert s[..|s| - 1] == cards;
  }

  lemma ValuesSnoc(cards: seq<Card>, c: Card)
    ensures Values(cards + [c]) == Values(cards) + [c.value as int]
  {
  }

  /** The bucket dictionary after groupByRank files card c. */
  function Filed(g: map<int, seq<Card>>, c: Card): map<int, seq<Card>> {
    g[c.value as int := (if c.value as int in g then g[c.value as int] else []) + [c]]
  }

  /** groupByRank files a card in two steps: open an empty bucket if the value has none, then push. */
  lemma FiledInSteps(g: map<int, seq<Card>>, c: Card)
    ensures var g0 := if c.value as int in g then g else g[c.value as int := []];
      Filed(g, c) == g0[c.value as int := g0[c.value as int] + [c]]
  {
  }

  /** Adding one card to the buckets: it joins the end of its value's bucket, opening one if needed. */
  lemma GroupsSnoc(cards: seq<Card>, c: Card)
    ensures Groups(cards + [c]) == Filed(Groups(cards), c)
  {
    GroupKeysSnoc(cards, c);
    GroupBucketsSnoc(cards, c);
  }

  lemma GroupBucketsSnoc(cards: seq<Card>, c: Card)
    ensures forall v | v in Groups(cards + [c]) && v in Filed(Groups(cards), c) ::
      Groups(cards + [c])[v] == Filed(Groups(cards), c)[v]
  {
    forall v | v in Groups(cards + [c]) && v in Filed(Groups(cards), c)
      ensures Groups(cards + [c])[v] == Filed(Groups(cards), c)[v]
    {
      BucketSnoc(cards, c, v);
    }
  }

  lemma GroupKeysSnoc(cards: seq<Card>, c: Card)
    ensures Groups(cards + [c]).Keys == Filed(Groups(cards), c).Keys
  {
    ValuesSnoc(cards, c);
    assert forall v :: v in Values(cards + [c]) <==> v in Values(cards) || v == c.value;
  }

  lemma BucketSnoc(cards: seq<Card>, c: Card, v: int)
    ensures WithValue(cards + [c], v) ==
      if v == c.value then (if v in Values(cards) then WithValue(cards, v) else []) + [c]
      else WithValue(cards, v)
  {
    WithValueSnoc(cards, c, v);
    if v == c.value && v !in Values(cards) {
      WithValueMissing(cards, v);
    }
  }

  /**
   * The key set of groupByRank is the set of values, and each bucket holds
   * exactly the cards of its value: every such card as often as the hand
   * holds it, and no other card.
   */
  lemma GroupsMeaning(cards: seq<Card>)
    ensures forall v :: v in Groups(cards) <==> v in Values(cards)
    ensures forall v | v in Groups(cards) ::
      |Groups(cards)[v]| == Count(cards, v) && forall c | c in Groups(cards)[v] :: c in cards && c.value == v
    ensures forall v | v in Groups(cards) :: forall c: Card ::
      multiset(Groups(cards)[v])[c] == if c.value == v then multiset(cards)[c] else 0
  {
    forall v | v in Groups(cards)
      ensures |Groups(cards)[v]| == Count(cards, v)
      ensures forall c: Card :: multiset(Groups(cards)[v])[c] == if c.value == v then multiset(cards)[c] else 0
    {
      WithValueCount(cards, v);
      WithValueMultiset(cards, v);
    }
  }

  /** The cards of value v keep their multiplicity, and no other card is kept. */
  lemma {:induction false} WithValueMultiset(cards: seq<Card>, v: int)
    ensures forall c: Card :: multiset(WithValue(cards, v))[c] == if c.value == v then multiset(cards)[c] else 0
  {
    if cards != [] {
      var init := cards[..|cards| - 1];
      WithValueMultiset(init, v);
      assert cards == init + [cards[|cards| - 1]];
    }
  }
}
