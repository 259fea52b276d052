/**
 * What evaluateFiveCards promises: the category of a hand, the shape and
 * meaning of its tiebreak key, and that compareHands is an ordering.
 */
module HandProperties {
  import opened Cards
  import opened Sorting
  import opened Sequences
  import opened HandRanking
  import opened HandGroups

  lemma {:induction false} ValuesOfInsert(x: Card, s: seq<Card>)
    ensures Values(InsertByKey(x, s, CardValue)) == InsertByKey(x.value as int, Values(s), Identity)
  {
    if s != [] && CardValue(x) < CardValue(s[0]) {
      ValuesOfInsert(x, s[1..]);
      assert Values(s)[1..] == Values(s[1..]);
      var t := InsertByKey(x, s[1..], CardValue);
      assert InsertByKey(x, s, CardValue) == [s[0]] + t;
      assert Values([s[0]] + t) == [s[0].value as int] + Values(t);
    } else {
      assert Values([x] + s) == [x.value as int] + Values(s);
    }
  }

  /** The sorted hand lists the values highest first, and holds the same cards. */
  lemma {:induction false} ValuesOfSortCards(cards: seq<Card>)
    ensures Values(SortCards(cards)) == SortDesc(Values(cards))
    ensures multiset(SortCards(cards)) == multiset(cards)
  {
    SortByKeyCorrect(cards, CardValue);
    if cards != [] {
      ValuesOfSortCards(cards[1..]);
      ValuesOfInsert(cards[0], SortCards(cards[1..]));
      assert Values(cards)[1..] == Values(cards[1..]);
    }
  }

  lemma SortedCounts(cards: seq<Card>, v: int)
    ensures Count(SortCards(cards), v) == Count(cards, v)
  {
    ValuesOfSortCards(cards);
    SortDescCorrect(Values(cards));
  }

  predicate Grouped(rank: int) {
    rank == FOUR_OF_A_KIND || rank == FULL_HOUSE || rank == THREE_OF_A_KIND || rank == TWO_PAIR || rank == PAIR
  }

  /** The condition on the sorted bucket sizes under which evaluateFiveCards picks a grouped category. */
  predicate Matches(counts: seq<int>, rank: int) {
    if rank == FOUR_OF_A_KIND then At(counts, 0) == 4
    else if rank == FULL_HOUSE then At(counts, 0) == 3 && At(counts, 1) == 2
    else if rank == THREE_OF_A_KIND then At(counts, 0) == 3 && At(counts, 1) != 2
    else if rank == TWO_PAIR then At(counts, 0) == 2 && At(counts, 1) == 2
    else At(counts, 0) == 2 && At(counts, 1) != 2
  }

  lemma GroupedCategory(flush: bool, straight: bool, top: int, second: int, counts: seq<int>)
    ensures var rank := Category(flush, straight, top, second, counts); Grouped(rank) ==> Matches(counts, rank)
  {
  }

  lemma GroupedBranch(cards: seq<Card>)
    requires |cards| == 5
    ensures var e := EvaluateFiveCards(cards);
      var groups := Groups(SortCards(cards));
      Grouped(e.rank) ==> e.highCards == HighCards(groups, Pattern(e.rank)) && Matches(Counts(groups), e.rank)
  {
    var s := SortCards(cards);
    var rank := Category(IsFlush(s), Straight(s), s[0].value, s[1].value, Counts(Groups(s)));
    assert EvaluateFiveCards(cards) == Evaluation(rank, HandName(rank), Key(rank, s, Groups(s)));
    GroupedCategory(IsFlush(s), Straight(s), s[0].value, s[1].value, Counts(Groups(s)));
    if Grouped(rank) {
      GroupedKeyIsPicked(rank, s, Groups(s));
    }
  }

  lemma GroupedKeyIsPicked(rank: int, sorted: seq<Card>, groups: map<int, seq<Card>>)
    requires |sorted| > 0 && Grouped(rank)
    ensures Key(rank, sorted, groups) == HighCards(groups, Pattern(rank))
  {
  }

  lemma MatchedProfile(counts: seq<int>, rank: int)
    requires Grouped(rank) && Matches(counts, rank)
    requires SortedDesc(counts) && Sum(counts) == 5 && forall i :: 0 <= i < |counts| ==> counts[i] >= 1
    ensures counts == Pattern(rank)
  {
    Profiles(counts);
  }

  /**
   * A grouped category's key is the bucket values in getHighCards order, and
   * the buckets have exactly the sizes its pattern names.
   */
  lemma GroupedKey(cards: seq<Card>)
    requires |cards| == 5
    ensures var e := EvaluateFiveCards(cards);
      var sg := SortedGroups(SortCards(cards));
      Grouped(e.rank) ==> e.highCards == GroupValues(sg) && Sizes(sg) == Pattern(e.rank)
  {
    var s := SortCards(cards);
    var sg := SortedGroups(s);
    var e := EvaluateFiveCards(cards);
    if Grouped(e.rank) {
      GroupedBranch(cards);
      CountsAreSortedSizes(s);
      SortDescCorrect(Sizes(Entries(Groups(s))));
      MatchedProfile(Counts(Groups(s)), e.rank);
      SelectAll(sg, Pattern(e.rank));
    }
  }

  /** Bucket i of the sorted hand holds exactly the cards of its value. */
  lemma BucketCounts(cards: seq<Card>)
    ensures var sg := SortedGroups(SortCards(cards));
      forall i :: 0 <= i < |sg| ==> Count(cards, GroupValues(sg)[i]) == Sizes(sg)[i]
  {
    var s := SortCards(cards);
    var sg := SortedGroups(s);
    SortedGroupsMembers(s);
    forall i | 0 <= i < |sg| ensures Count(cards, GroupValues(sg)[i]) == Sizes(sg)[i] {
      assert sg[i] in sg;
      SortedCounts(cards, sg[i].value);
    }
  }

  /** Among buckets of equal size the higher value comes first. */
  lemma BucketOrder(cards: seq<Card>)
    ensures var sg := SortedGroups(SortCards(cards));
      forall i, j :: 0 <= i < j < |sg| && Sizes(sg)[i] == Sizes(sg)[j] ==> GroupValues(sg)[i] > GroupValues(sg)[j]
  {
    var s := SortCards(cards);
    var sg := SortedGroups(s);
    SortedGroupsDistinct(s);
    SortedGroupsPermute(s);
    forall i, j | 0 <= i < j < |sg| && Sizes(sg)[i] == Sizes(sg)[j] ensures GroupValues(sg)[i] > GroupValues(sg)[j] {
      assert GroupKey(sg[i]) >= GroupKey(sg[j]);
    }
  }

  lemma CoverOne(cards: seq<Card>, v: int)
    requires v in Values(cards)
    ensures v in GroupValues(SortedGroups(SortCards(cards)))
  {
    var s := SortCards(cards);
    var sg := SortedGroups(s);
    assert v in Values(s) by {
      ValuesOfSortCards(cards);
      SortDescCorrect(Values(cards));
      assert v in multiset(Values(s));
    }
    var k :| 0 <= k < |s| && Values(s)[k] == v;
    var w: Value := s[k].value;
    assert Group(w, WithValue(s, w)) in sg by {
      SortedGroupsComplete(s, w);
    }
    var i :| 0 <= i < |sg| && sg[i] == Group(w, WithValue(s, w));
    assert GroupValues(sg)[i] == w;
  }

  /** Every value of the hand has a bucket. */
  lemma BucketsCover(cards: seq<Card>)
    ensures var sg := SortedGroups(SortCards(cards));
      forall v :: v in Values(cards) ==> v in GroupValues(sg)
  {
    forall v | v in Values(cards) ensures v in GroupValues(SortedGroups(SortCards(cards))) {
      CoverOne(cards, v);
    }
  }

  /**
   * In a grouped category, key entry i is a value held by exactly
   * Pattern(rank)[i] cards, no value appears twice, among buckets of equal
   * size the higher value comes first, and every value of the hand appears.
   */
  lemma GroupedKeyMeaning(cards: seq<Card>)
    requires |cards| == 5
    ensures var e := EvaluateFiveCards(cards);
      Grouped(e.rank) ==>
        && |e.highCards| == |Pattern(e.rank)|
        && (forall i :: 0 <= i < |e.highCards| ==> Count(cards, e.highCards[i]) == Pattern(e.rank)[i])
        && (forall i, j :: 0 <= i < j < |e.highCards| ==> e.highCards[i] != e.highCards[j])
        && (forall i, j :: 0 <= i < j < |e.highCards| && Pattern(e.rank)[i] == Pattern(e.rank)[j] ==>
              e.highCards[i] > e.highCards[j])
        && (forall v :: v in Values(cards) ==> v in e.highCards)
  {
    var e := EvaluateFiveCards(cards);
    var s := SortCards(cards);
    GroupedKey(cards);
    BucketCounts(cards);
    BucketOrder(cards);
    BucketsCover(cards);
    SortedGroupsDistinct(s);
  }

  /** How many key entries each category has. */
  function KeyLength(rank: int): nat {
    if rank == ROYAL_FLUSH || rank == FLUSH || rank == HIGH_CARD then 5
    else if rank == STRAIGHT_FLUSH || rank == STRAIGHT then 1
    else |Pattern(rank)|
  }

  /** An evaluation as evaluateFiveCards builds them: a category, its name and a key of the category's length. */
  predicate WellFormed(e: Evaluation) {
    HIGH_CARD <= e.rank <= ROYAL_FLUSH && e.name == HandName(e.rank) && |e.highCards| == KeyLength(e.rank)
  }

  lemma KeyIsValues(cards: seq<Card>, k: seq<int>)
    requires k == Values(SortCards(cards)) || k == SortDesc(Values(cards))
    ensures k == SortDesc(Values(cards)) && forall i :: 0 <= i < |k| ==> k[i] in Values(cards)
  {
    ValuesOfSortCards(cards);
    SortDescCorrect(Values(cards));
    forall i | 0 <= i < |k| ensures k[i] in Values(cards) {
      assert k[i] in multiset(Values(cards));
    }
  }

  /** evaluateFiveCards in terms of its parts. */
  lemma EvaluateParts(cards: seq<Card>)
    requires |cards| == 5
    ensures var s := SortCards(cards);
      var e := EvaluateFiveCards(cards);
      && |s| == 5
      && e.rank == Category(IsFlush(s), Straight(s), s[0].value, s[1].value, Counts(Groups(s)))
      && e.name == HandName(e.rank) && e.highCards == Key(e.rank, s, Groups(s))
  {
  }

  lemma FullKeys(cards: seq<Card>)
    requires |cards| == 5
    ensures var e := EvaluateFiveCards(cards);
      && (e.rank == ROYAL_FLUSH || e.rank == FLUSH || e.rank == HIGH_CARD ==> e.highCards == SortDesc(Values(cards)))
      && (e.rank == STRAIGHT_FLUSH || e.rank == STRAIGHT ==> e.highCards == [SortDesc(Values(cards))[0]])
  {
    EvaluateParts(cards);
    KeyIsValues(cards, Values(SortCards(cards)));
  }

  /** evaluateFiveCards yields a category, its name, and a key of the category's length. */
  lemma EvaluationWellFormed(cards: seq<Card>)
    requires |cards| == 5
    ensures WellFormed(EvaluateFiveCards(cards))
  {
    var e := EvaluateFiveCards(cards);
    EvaluateParts(cards);
    if Grouped(e.rank) {
      GroupedKey(cards);
    } else {
      FullKeys(cards);
    }
  }

  lemma PatternPositive(rank: int)
    ensures forall i :: 0 <= i < |Pattern(rank)| ==> Pattern(rank)[i] >= 1
  {
  }

  lemma CountedAreValues(cards: seq<Card>, rank: int, hc: seq<int>)
    requires |hc| == |Pattern(rank)|
    requires forall i :: 0 <= i < |hc| ==> Count(cards, hc[i]) == Pattern(rank)[i]
    ensures forall i :: 0 <= i < |hc| ==> hc[i] in Values(cards)
  {
    PatternPositive(rank);
    forall i | 0 <= i < |hc| ensures hc[i] in Values(cards) {
      assert hc[i] in multiset(Values(cards));
    }
  }

  lemma GroupedEntriesAreValues(cards: seq<Card>)
    requires |cards| == 5 && Grouped(EvaluateFiveCards(cards).rank)
    ensures var e := EvaluateFiveCards(cards);
      forall i :: 0 <= i < |e.highCards| ==> e.highCards[i] in Values(cards)
  {
    var e := EvaluateFiveCards(cards);
    GroupedKeyMeaning(cards);
    CountedAreValues(cards, e.rank, e.highCards);
  }

  /** Every key entry is a value of one of the cards. */
  lemma KeyEntriesAreValues(cards: seq<Card>)
    requires |cards| == 5
    ensures var e := EvaluateFiveCards(cards);
      forall i :: 0 <= i < |e.highCards| ==> e.highCards[i] in Values(cards)
  {
    if Grouped(EvaluateFiveCards(cards).rank) {
      GroupedEntriesAreValues(cards);
    } else {
      FullKeys(cards);
      KeyIsValues(cards, SortDesc(Values(cards)));
    }
  }

  /** Five values running down by one from h. */
  function Run(h: int): seq<int> {
    [h, h - 1, h - 2, h - 3, h - 4]
  }

  const WHEEL: seq<int> := [14, 5, 4, 3, 2]

  lemma StraightValues(v: seq<int>)
    requires |v| == 5 && SortedDesc(v)
    ensures Consecutive(v) || Wheel(v) <==> v == Run(v[0]) || v == WHEEL
  {
    if Consecutive(v) {
      assert v[1] == v[0] - 1 && v[2] == v[0] - 2 && v[3] == v[0] - 3 && v[4] == v[0] - 4;
    }
    if Wheel(v) {
      assert v == WHEEL;
    }
  }

  lemma RunSorted(h: int)
    ensures SortedDesc(Run(h)) && SortedDesc(WHEEL)
  {
  }

  lemma StraightIfRun(vals: seq<int>, h: int)
    requires multiset(vals) == multiset(Run(h))
    ensures var v := SortDesc(vals); Consecutive(v)
  {
    var v := SortDesc(vals);
    assert v == Run(h) by {
      SortDescCorrect(vals);
      RunSorted(h);
      SortedDescUnique(v, Run(h));
    }
  }

  lemma StraightIfWheel(vals: seq<int>)
    requires multiset(vals) == multiset(WHEEL)
    ensures var v := SortDesc(vals); Wheel(v)
  {
    var v := SortDesc(vals);
    SortDescCorrect(vals);
    RunSorted(0);
    SortedDescUnique(v, WHEEL);
  }

  lemma RunOrWheel(vals: seq<int>)
    requires |vals| == 5
    ensures var v := SortDesc(vals);
      Consecutive(v) || Wheel(v) ==> multiset(vals) == multiset(Run(v[0])) || multiset(vals) == multiset(WHEEL)
  {
    var v := SortDesc(vals);
    SortDescCorrect(vals);
    StraightValues(v);
  }

  /**
   * isStraight holds exactly when the five values are h, h-1, ..., h-4 for
   * some h, or are A, 5, 4, 3, 2, in whatever order the cards come.
   */
  lemma StraightMeaning(cards: seq<Card>)
    requires |cards| == 5
    ensures Straight(cards) <==>
      (exists h :: multiset(Values(cards)) == multiset(Run(h))) || multiset(Values(cards)) == multiset(WHEEL)
  {
    var vals := Values(cards);
    RunOrWheel(vals);
    if h :| multiset(vals) == multiset(Run(h)) {
      StraightIfRun(vals, h);
    }
    if multiset(vals) == multiset(WHEEL) {
      StraightIfWheel(vals);
    }
  }

  /** Sorting the hand first does not change whether it is a straight. */
  lemma StraightOfSorted(cards: seq<Card>)
    ensures Straight(SortCards(cards)) == Straight(cards)
  {
    var v := SortDesc(Values(cards));
    ValuesOfSortCards(cards);
    SortDescCorrect(Values(cards));
    assert SortedByKey(v, Identity);
    SortSortedIsIdentity(v, Identity);
  }

  predicate AllSameSuit(cards: seq<Card>) {
    forall i, j :: 0 <= i < |cards| && 0 <= j < |cards| ==> cards[i].suit == cards[j].suit
  }

  lemma SameSuitByMembers(a: seq<Card>, b: seq<Card>)
    requires multiset(a) == multiset(b) && AllSameSuit(a)
    ensures AllSameSuit(b)
  {
    forall i, j | 0 <= i < |b| && 0 <= j < |b| ensures b[i].suit == b[j].suit {
      assert b[i] in multiset(a) && b[j] in multiset(a);
      var k :| 0 <= k < |a| && a[k] == b[i];
      var l :| 0 <= l < |a| && a[l] == b[j];
    }
  }

  /** isFlush on the sorted hand holds exactly when all five cards share a suit. */
  lemma FlushMeaning(cards: seq<Card>)
    requires |cards| == 5
    ensures |SortCards(cards)| == 5 && (IsFlush(SortCards(cards)) <==> AllSameSuit(cards))
  {
    ValuesOfSortCards(cards);
    if AllSameSuit(cards) {
      SameSuitByMembers(cards, SortCards(cards));
    }
    if AllSameSuit(SortCards(cards)) {
      SameSuitByMembers(SortCards(cards), cards);
    }
  }

  /** Some value is held by exactly k of the cards. */
  ghost predicate HasCount(cards: seq<Card>, k: int) {
    exists v :: Count(cards, v) == k
  }

  /** Two different values are each held by exactly two cards. */
  ghost predicate TwoPairs(cards: seq<Card>) {
    exists v, w :: v != w && Count(cards, v) == 2 && Count(cards, w) == 2
  }

  predicate IsProfile(c: seq<int>) {
    c == [5] || c == [4, 1] || c == [3, 2] || c == [3, 1, 1] || c == [2, 2, 1] || c == [2, 1, 1, 1] || c == [1, 1, 1, 1, 1]
  }

  lemma CountsProfile(cards: seq<Card>)
    requires |cards| == 5
    ensures IsProfile(Counts(Groups(SortCards(cards))))
  {
    var s := SortCards(cards);
    ValuesOfSortCards(cards);
    CountsAreSortedSizes(s);
    SortDescCorrect(Sizes(Entries(Groups(s))));
    Profiles(Counts(Groups(s)));
  }

  lemma HasCountInCounts(cards: seq<Card>, k: int)
    requires k >= 1
    ensures HasCount(cards, k) <==> k in Counts(Groups(SortCards(cards)))
  {
    var s := SortCards(cards);
    var sg := SortedGroups(s);
    CountsAreSortedSizes(s);
    BucketCounts(cards);
    if HasCount(cards, k) {
      var v :| Count(cards, v) == k;
      assert v in multiset(Values(cards));
      CoverOne(cards, v);
      var i :| 0 <= i < |sg| && GroupValues(sg)[i] == v;
      assert Sizes(sg)[i] == k;
    }
    if k in Sizes(sg) {
      var i :| 0 <= i < |sg| && Sizes(sg)[i] == k;
      assert Count(cards, GroupValues(sg)[i]) == k;
    }
  }

  lemma TwoTwos(c: seq<int>, i: int, j: int)
    requires IsProfile(c) && 0 <= i < |c| && 0 <= j < |c| && i != j && c[i] == 2 && c[j] == 2
    ensures c == [2, 2, 1]
  {
  }

  lemma TwoPairsGiveTwoTwos(cards: seq<Card>)
    requires |cards| == 5 && TwoPairs(cards)
    ensures Counts(Groups(SortCards(cards))) == [2, 2, 1]
  {
    var s := SortCards(cards);
    var sg := SortedGroups(s);
    CountsAreSortedSizes(s);
    CountsProfile(cards);
    BucketCounts(cards);
    var v, w :| v != w && Count(cards, v) == 2 && Count(cards, w) == 2;
    assert v in multiset(Values(cards)) && w in multiset(Values(cards));
    CoverOne(cards, v);
    CoverOne(cards, w);
    var i :| 0 <= i < |sg| && GroupValues(sg)[i] == v;
    var j :| 0 <= j < |sg| && GroupValues(sg)[j] == w;
    TwoTwos(Counts(Groups(s)), i, j);
  }

  lemma TwoTwosGiveTwoPairs(cards: seq<Card>)
    requires Counts(Groups(SortCards(cards))) == [2, 2, 1]
    ensures TwoPairs(cards)
  {
    var s := SortCards(cards);
    var sg := SortedGroups(s);
    CountsAreSortedSizes(s);
    BucketCounts(cards);
    SortedGroupsDistinct(s);
    assert Count(cards, GroupValues(sg)[0]) == 2 && Count(cards, GroupValues(sg)[1]) == 2;
  }

  lemma TwoPairsInCounts(cards: seq<Card>)
    requires |cards| == 5
    ensures TwoPairs(cards) <==> Counts(Groups(SortCards(cards))) == [2, 2, 1]
  {
    if TwoPairs(cards) {
      TwoPairsGiveTwoTwos(cards);
    }
    if Counts(Groups(SortCards(cards))) == [2, 2, 1] {
      TwoTwosGiveTwoPairs(cards);
    }
  }

  lemma CategoryTable(flush: bool, straight: bool, top: int, second: int, c: seq<int>, h2: bool, h3: bool, h4: bool, tp: bool)
    requires IsProfile(c)
    requires (h2 <==> 2 in c) && (h3 <==> 3 in c) && (h4 <==> 4 in c) && (tp <==> c == [2, 2, 1])
    ensures var rank := Category(flush, straight, top, second, c);
      && (rank == ROYAL_FLUSH <==> straight && flush && top == 14 && second == 13)
      && (rank == STRAIGHT_FLUSH <==> straight && flush && !(top == 14 && second == 13))
      && (rank == FOUR_OF_A_KIND <==> !(straight && flush) && h4)
      && (rank == FULL_HOUSE <==> !(straight && flush) && h3 && h2)
      && (rank == FLUSH <==> flush && !straight && !h4 && !(h3 && h2))
      && (rank == STRAIGHT <==> straight && !flush && !h4 && !(h3 && h2))
      && (rank == THREE_OF_A_KIND <==> !flush && !straight && h3 && !h2)
      && (rank == TWO_PAIR <==> !flush && !straight && tp)
      && (rank == PAIR <==> !flush && !straight && h2 && !h3 && !tp)
      && (rank == HIGH_CARD <==> !flush && !straight && !h2 && !h3 && !h4)
  {
  }

  /**
   * The category evaluateFiveCards assigns, in terms of the hand itself: the
   * suits, whether the values form a straight, the two highest values and
   * how many cards share a value. Checked against the precedence order:
   * straight flush (royal when the top two are ace and king), four of a kind,
   * full house, flush, straight, three of a kind, two pair, pair, high card.
   */
  lemma CategoryMeaning(cards: seq<Card>)
    requires |cards| == 5
    ensures var rank := EvaluateFiveCards(cards).rank;
      var flush := AllSameSuit(cards);
      var straight := Straight(cards);
      var v := SortDesc(Values(cards));
      var h2, h3, h4 := HasCount(cards, 2), HasCount(cards, 3), HasCount(cards, 4);
      && (rank == ROYAL_FLUSH <==> straight && flush && v[0] == 14 && v[1] == 13)
      && (rank == STRAIGHT_FLUSH <==> straight && flush && !(v[0] == 14 && v[1] == 13))
      && (rank == FOUR_OF_A_KIND <==> !(straight && flush) && h4)
      && (rank == FULL_HOUSE <==> !(straight && flush) && h3 && h2)
      && (rank == FLUSH <==> flush && !straight && !h4 && !(h3 && h2))
      && (rank == STRAIGHT <==> straight && !flush && !h4 && !(h3 && h2))
      && (rank == THREE_OF_A_KIND <==> !flush && !straight && h3 && !h2)
      && (rank == TWO_PAIR <==> !flush && !straight && TwoPairs(cards))
      && (rank == PAIR <==> !flush && !straight && h2 && !h3 && !TwoPairs(cards))
      && (rank == HIGH_CARD <==> !flush && !straight && !h2 && !h3 && !h4)
  {
    var s := SortCards(cards);
    var c := Counts(Groups(s));
    EvaluateParts(cards);
    FlushMeaning(cards);
    StraightOfSorted(cards);
    ValuesOfSortCards(cards);
    CountsProfile(cards);
    HasCountInCounts(cards, 2);
    HasCountInCounts(cards, 3);
    HasCountInCounts(cards, 4);
    TwoPairsInCounts(cards);
    CategoryTable(IsFlush(s), Straight(s), s[0].value, s[1].value, c,
      HasCount(cards, 2), HasCount(cards, 3), HasCount(cards, 4), TwoPairs(cards));
  }

  lemma WheelFacts(cards: seq<Card>)
    requires |cards| == 5 && multiset(Values(cards)) == multiset(WHEEL)
    ensures SortDesc(Values(cards)) == WHEEL && Straight(cards)
    ensures !HasCount(cards, 2) && !HasCount(cards, 3) && !HasCount(cards, 4)
  {
    WheelSorted(cards);
    WheelStraight(cards);
    WheelDistinct(cards);
  }

  lemma WheelSorted(cards: seq<Card>)
    requires multiset(Values(cards)) == multiset(WHEEL)
    ensures SortDesc(Values(cards)) == WHEEL
  {
    SortDescCorrect(Values(cards));
    RunSorted(0);
    SortedDescUnique(SortDesc(Values(cards)), WHEEL);
  }

  lemma WheelStraight(cards: seq<Card>)
    requires multiset(Values(cards)) == multiset(WHEEL)
    ensures Straight(cards)
  {
    StraightMeaning(cards);
    StraightIfWheel(Values(cards));
  }

  lemma WheelDistinct(cards: seq<Card>)
    requires multiset(Values(cards)) == multiset(WHEEL)
    ensures !HasCount(cards, 2) && !HasCount(cards, 3) && !HasCount(cards, 4)
  {
    forall x ensures Count(cards, x) <= 1 {
      assert multiset(WHEEL)[x] <= 1;
    }
  }

  /** The ace-low straight keeps the ace as its key. */
  lemma WheelKey(cards: seq<Card>)
    requires |cards| == 5 && multiset(Values(cards)) == multiset(WHEEL)
    ensures var e := EvaluateFiveCards(cards);
      (e.rank == STRAIGHT || e.rank == STRAIGHT_FLUSH) && e.highCards == [14]
  {
    WheelFacts(cards);
    CategoryMeaning(cards);
    FullKeys(cards);
  }

  /** A run h, h-1, ..., h-4 in more than one suit is a straight keyed by h. */
  lemma RunKey(cards: seq<Card>, h: int)
    requires |cards| == 5 && multiset(Values(cards)) == multiset(Run(h)) && !AllSameSuit(cards)
    ensures EvaluateFiveCards(cards).rank == STRAIGHT && EvaluateFiveCards(cards).highCards == [h]
  {
    RunFacts(cards, h);
    assert EvaluateFiveCards(cards).rank == STRAIGHT by {
      CategoryMeaning(cards);
    }
    FullKeys(cards);
  }

  lemma RunFacts(cards: seq<Card>, h: int)
    requires multiset(Values(cards)) == multiset(Run(h))
    ensures SortDesc(Values(cards)) == Run(h) && Straight(cards)
    ensures !HasCount(cards, 2) && !HasCount(cards, 3) && !HasCount(cards, 4)
  {
    RunSortedValues(cards, h);
    StraightIfRun(Values(cards), h);
    RunDistinct(cards, h);
  }

  lemma RunSortedValues(cards: seq<Card>, h: int)
    requires multiset(Values(cards)) == multiset(Run(h))
    ensures SortDesc(Values(cards)) == Run(h)
  {
    SortDescCorrect(Values(cards));
    RunSorted(h);
    SortedDescUnique(SortDesc(Values(cards)), Run(h));
  }

  lemma RunDistinct(cards: seq<Card>, h: int)
    requires multiset(Values(cards)) == multiset(Run(h))
    ensures !HasCount(cards, 2) && !HasCount(cards, 3) && !HasCount(cards, 4)
  {
    forall x ensures Count(cards, x) <= 1 {
      RunOnce(h, x);
    }
  }

  lemma RunOnce(h: int, x: int)
    ensures multiset(Run(h))[x] <= 1
  {
    assert Distinct(Run(h));
    DistinctOnce(Run(h), x);
  }

  /** The lowest value of a run of cards is a card value, so the run tops out at six or more. */
  lemma RunAtLeastSix(cards: seq<Card>, h: int)
    requires multiset(Values(cards)) == multiset(Run(h))
    ensures h >= 6
  {
    assert h - 4 in multiset(Values(cards));
    var i :| 0 <= i < |cards| && Values(cards)[i] == h - 4;
  }

  /** The wheel in more than one suit: a straight keyed by the ace. */
  lemma WheelPlainKey(cards: seq<Card>)
    requires |cards| == 5 && multiset(Values(cards)) == multiset(WHEEL) && !AllSameSuit(cards)
    ensures EvaluateFiveCards(cards).rank == STRAIGHT && EvaluateFiveCards(cards).highCards == [14]
  {
    WheelKey(cards);
    assert EvaluateFiveCards(cards).rank != STRAIGHT_FLUSH by {
      CategoryMeaning(cards);
    }
  }

  /**
   * As written, the wheel keeps the ace as its key, so it beats every other
   * straight except the ace-high one, which it ties.
   */
  lemma WheelOutranksStraights(wheel: seq<Card>, other: seq<Card>, h: int)
    requires |wheel| == 5 && multiset(Values(wheel)) == multiset(WHEEL) && !AllSameSuit(wheel)
    requires |other| == 5 && multiset(Values(other)) == multiset(Run(h)) && !AllSameSuit(other)
    ensures var w, o := EvaluateFiveCards(wheel), EvaluateFiveCards(other);
      && w.rank == o.rank == STRAIGHT && |w.highCards| == |o.highCards|
      && (h < 14 ==> CompareHands(w, o) > 0)
      && (h == 14 ==> CompareHands(w, o) == 0)
  {
    WheelPlainKey(wheel);
    RunKey(other, h);
    SingleKeyCompare(EvaluateFiveCards(wheel), EvaluateFiveCards(other));
  }

  lemma SingleKeyCompare(a: Evaluation, b: Evaluation)
    requires a.rank == b.rank && |a.highCards| == 1 && |b.highCards| == 1
    ensures CompareHands(a, b) == a.highCards[0] - b.highCards[0]
  {
    assert a.highCards[1..] == [] && CompareKeys([], b.highCards[1..]) == 0;
  }

  /** The high card of a straight with the ace played low in the wheel. */
  function StraightHigh(cards: seq<Card>): (high: int)
    requires |cards| == 5
    ensures high == 5 || high == SortDesc(Values(cards))[0]
  {
    var v := SortDesc(Values(cards));
    if Wheel(v) then 5 else v[0]
  }

  /** evaluateFiveCards with the straight keys ranked as poker ranks them: the wheel is the lowest straight. */
  function EvaluateFiveCardsCorrected(cards: seq<Card>): (e: Evaluation)
    requires |cards| == 5
    ensures e.rank == EvaluateFiveCards(cards).rank && e.name == EvaluateFiveCards(cards).name
    ensures e.rank != STRAIGHT && e.rank != STRAIGHT_FLUSH ==> e == EvaluateFiveCards(cards)
  {
    var e := EvaluateFiveCards(cards);
    if e.rank == STRAIGHT || e.rank == STRAIGHT_FLUSH then e.(highCards := [StraightHigh(cards)]) else e
  }

  lemma CorrectedStraightKey(cards: seq<Card>)
    requires |cards| == 5 && EvaluateFiveCards(cards).rank == STRAIGHT
    ensures EvaluateFiveCardsCorrected(cards) == EvaluateFiveCards(cards).(highCards := [StraightHigh(cards)])
  {
  }

  /** With the corrected key the wheel loses to every other straight. */
  lemma WheelLowestStraight(wheel: seq<Card>, other: seq<Card>, h: int)
    requires |wheel| == 5 && multiset(Values(wheel)) == multiset(WHEEL) && !AllSameSuit(wheel)
    requires |other| == 5 && multiset(Values(other)) == multiset(Run(h)) && !AllSameSuit(other)
    ensures var w, o := EvaluateFiveCardsCorrected(wheel), EvaluateFiveCardsCorrected(other);
      && w.rank == o.rank == STRAIGHT && w.highCards == [5] && o.highCards == [h]
      && CompareHands(w, o) < 0
  {
    WheelPlainKey(wheel);
    RunKey(other, h);
    CorrectedStraightKey(wheel);
    CorrectedStraightKey(other);
    WheelHigh(wheel);
    RunHigh(other, h);
    SingleKeyCompare(EvaluateFiveCardsCorrected(wheel), EvaluateFiveCardsCorrected(other));
  }

  lemma WheelHigh(cards: seq<Card>)
    requires |cards| == 5 && multiset(Values(cards)) == multiset(WHEEL)
    ensures StraightHigh(cards) == 5
  {
    StraightIfWheel(Values(cards));
  }

  lemma RunHigh(cards: seq<Card>, h: int)
    requires |cards| == 5 && multiset(Values(cards)) == multiset(Run(h))
    ensures StraightHigh(cards) == h && h >= 6
  {
    RunSortedValues(cards, h);
    RunAtLeastSix(cards, h);
  }

  /** x is above y at the first position where the two differ. */
  ghost predicate KeyAbove(x: seq<int>, y: seq<int>) {
    exists k :: 0 <= k < |x| && k < |y| && (forall j :: 0 <= j < k ==> x[j] == y[j]) && x[k] > y[k]
  }

  /** The first position where x and y differ, or |x| when x is a prefix of y. */
  function FirstDiff(x: seq<int>, y: seq<int>): (k: nat)
    requires |x| <= |y|
    ensures k <= |x| && (forall j :: 0 <= j < k ==> x[j] == y[j]) && (k < |x| ==> x[k] != y[k])
  {
    if x == [] || x[0] != y[0] then 0 else 1 + FirstDiff(x[1..], y[1..])
  }

  lemma {:induction false} CompareKeysAtFirstDiff(x: seq<int>, y: seq<int>)
    requires |x| <= |y|
    ensures var k := FirstDiff(x, y); CompareKeys(x, y) == if k == |x| then 0 else x[k] - y[k]
  {
    if x != [] && x[0] == y[0] {
      CompareKeysAtFirstDiff(x[1..], y[1..]);
    }
  }

  lemma KeyAboveAtFirstDiff(x: seq<int>, y: seq<int>)
    requires |x| <= |y|
    ensures var k := FirstDiff(x, y);
      && (KeyAbove(x, y) <==> k < |x| && x[k] > y[k])
      && (KeyAbove(y, x) <==> k < |x| && x[k] < y[k])
  {
    var k := FirstDiff(x, y);
    if KeyAbove(x, y) {
      var m :| 0 <= m < |x| && m < |y| && (forall j :: 0 <= j < m ==> x[j] == y[j]) && x[m] > y[m];
      assert m == k;
    }
    if KeyAbove(y, x) {
      var m :| 0 <= m < |y| && m < |x| && (forall j :: 0 <= j < m ==> y[j] == x[j]) && y[m] > x[m];
      assert m == k;
    }
  }

  /** compareHands on keys: 0 for a prefix, otherwise the sign of the first differing entry. */
  lemma CompareKeysMeaning(x: seq<int>, y: seq<int>)
    requires |x| <= |y|
    ensures CompareKeys(x, y) == 0 <==> (forall j :: 0 <= j < |x| ==> x[j] == y[j])
    ensures CompareKeys(x, y) > 0 <==> KeyAbove(x, y)
    ensures CompareKeys(x, y) < 0 <==> KeyAbove(y, x)
  {
    CompareKeysAtFirstDiff(x, y);
    KeyAboveAtFirstDiff(x, y);
  }

  /** compareHands is positive exactly when a has the higher category, or the same one and the higher key. */
  lemma CompareHandsMeaning(a: Evaluation, b: Evaluation)
    requires a.rank != b.rank || |a.highCards| <= |b.highCards|
    ensures CompareHands(a, b) > 0 <==> a.rank > b.rank || (a.rank == b.rank && KeyAbove(a.highCards, b.highCards))
    ensures CompareHands(a, b) < 0 <==> a.rank < b.rank || (a.rank == b.rank && KeyAbove(b.highCards, a.highCards))
    ensures CompareHands(a, b) == 0 <==>
      a.rank == b.rank && forall j :: 0 <= j < |a.highCards| ==> a.highCards[j] == b.highCards[j]
  {
    if a.rank == b.rank {
      CompareKeysMeaning(a.highCards, b.highCards);
    }
  }

  lemma {:induction false} CompareKeysAntisymmetric(x: seq<int>, y: seq<int>)
    requires |x| == |y|
    ensures CompareKeys(x, y) == -CompareKeys(y, x)
  {
    if x != [] && x[0] == y[0] {
      CompareKeysAntisymmetric(x[1..], y[1..]);
    }
  }

  lemma {:induction false} CompareKeysTransitive(x: seq<int>, y: seq<int>, z: seq<int>)
    requires |x| == |y| == |z|
    ensures CompareKeys(x, y) >= 0 && CompareKeys(y, z) >= 0 ==> CompareKeys(x, z) >= 0
    ensures CompareKeys(x, y) > 0 && CompareKeys(y, z) >= 0 ==> CompareKeys(x, z) > 0
    ensures CompareKeys(x, y) >= 0 && CompareKeys(y, z) > 0 ==> CompareKeys(x, z) > 0
  {
    if x != [] && x[0] == y[0] == z[0] {
      CompareKeysTransitive(x[1..], y[1..], z[1..]);
    }
  }

  /** Two evaluations of the same category have keys of the same length, so compareHands applies both ways. */
  lemma SameRankSameLength(a: Evaluation, b: Evaluation)
    requires WellFormed(a) && WellFormed(b)
    ensures a.rank == b.rank ==> |a.highCards| == |b.highCards|
  {
  }

  /** Swapping the arguments of compareHands negates the result. */
  lemma CompareAntisymmetric(a: Evaluation, b: Evaluation)
    requires WellFormed(a) && WellFormed(b)
    ensures CompareHands(a, b) == -CompareHands(b, a)
  {
    if a.rank == b.rank {
      CompareKeysAntisymmetric(a.highCards, b.highCards);
    }
  }

  /** compareHands is 0 exactly for equal evaluations. */
  lemma CompareZeroIffEqual(a: Evaluation, b: Evaluation)
    requires WellFormed(a) && WellFormed(b)
    ensures CompareHands(a, b) == 0 <==> a == b
  {
    if a.rank == b.rank {
      CompareKeysMeaning(a.highCards, b.highCards);
      if CompareHands(a, b) == 0 {
        assert a.highCards == b.highCards;
      }
    }
  }

  /** "At least as good" and "better" chain through compareHands. */
  lemma CompareTransitive(a: Evaluation, b: Evaluation, c: Evaluation)
    requires WellFormed(a) && WellFormed(b) && WellFormed(c)
    ensures CompareHands(a, b) >= 0 && CompareHands(b, c) >= 0 ==> CompareHands(a, c) >= 0
    ensures CompareHands(a, b) > 0 && CompareHands(b, c) >= 0 ==> CompareHands(a, c) > 0
    ensures CompareHands(a, b) >= 0 && CompareHands(b, c) > 0 ==> CompareHands(a, c) > 0
  {
    if a.rank == b.rank == c.rank {
      CompareKeysTransitive(a.highCards, b.highCards, c.highCards);
    }
  }
}
