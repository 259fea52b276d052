/**
 * The classification of a five-card poker hand into one of ten categories
 * with a tiebreak key, and the comparison of two classified hands.
 */
module HandRanking {
  import opened Cards
  import opened Sorting
  import opened Sequences

  const HIGH_CARD := 1
  const PAIR := 2
  const TWO_PAIR := 3
  const THREE_OF_A_KIND := 4
  const STRAIGHT := 5
  const FLUSH := 6
  const FULL_HOUSE := 7
  const FOUR_OF_A_KIND := 8
  const STRAIGHT_FLUSH := 9
  const ROYAL_FLUSH := 10

  function HandName(rank: int): string
    requires HIGH_CARD <= rank <= ROYAL_FLUSH
  {
    if rank == HIGH_CARD then "High Card"
    else if rank == PAIR then "Pair"
    else if rank == TWO_PAIR then "Two Pair"
    else if rank == THREE_OF_A_KIND then "Three of a Kind"
    else if rank == STRAIGHT then "Straight"
    else if rank == FLUSH then "Flush"
    else if rank == FULL_HOUSE then "Full House"
    else if rank == FOUR_OF_A_KIND then "Four of a Kind"
    else if rank == STRAIGHT_FLUSH then "Straight Flush"
    else "Royal Flush"
  }

  /** A category, its display name and the values that break ties within it, most significant first. */
  datatype Evaluation = Evaluation(rank: int, name: string, highCards: seq<int>)

  function CardValue(c: Card): int { c.value }

  /** `[...cards].sort((a, b) => b.value - a.value)`: stable, highest value first. */
  function SortCards(cards: seq<Card>): seq<Card> {
    SortByKey(cards, CardValue)
  }

  /** isFlush: every card has the suit of the first. */
  function IsFlush(cards: seq<Card>): (b: bool)
    requires |cards| > 0
    ensures b <==> forall i, j :: 0 <= i < |cards| && 0 <= j < |cards| ==> cards[i].suit == cards[j].suit
  {
    forall i :: 0 <= i < |cards| ==> cards[i].suit == cards[0].suit
  }

  /** Each value one below the one before it. */
  predicate Consecutive(v: seq<int>) {
    forall i :: 0 <= i < |v| - 1 ==> v[i] == v[i + 1] + 1
  }

  /** The ace-low straight A-5-4-3-2 in descending order. */
  predicate Wheel(v: seq<int>) {
    At(v, 0) == 14 && At(v, 1) == 5 && At(v, 2) == 4 && At(v, 3) == 3 && At(v, 4) == 2
  }

  /** isStraight: the values, sorted descending, run down by one, or form the wheel. */
  predicate Straight(cards: seq<Card>) {
    var v := SortDesc(Values(cards));
    Consecutive(v) || Wheel(v)
  }

  /** The cards of `cards` whose value is v, in their order. */
  function WithValue(cards: seq<Card>, v: int): (r: seq<Card>)
    ensures forall c | c in r :: c in cards && c.value == v
  {
    if cards == [] then []
    else
      var last := cards[|cards| - 1];
      WithValue(cards[..|cards| - 1], v) + (if last.value == v then [last] else [])
  }

  /** groupByRank: the cards bucketed by value. */
  function Groups(cards: seq<Card>): map<int, seq<Card>> {
    map v | v in Values(cards) :: WithValue(cards, v)
  }

  /** An entry of the bucket dictionary: a value and the cards carrying it. */
  datatype Group = Group(value: Value, cards: seq<Card>)

  /** `Object.entries(groups)`: integer keys come out in ascending order. */
  function Entries(groups: map<int, seq<Card>>): seq<Group> {
    EntriesFrom(groups, 2)
  }

  function EntriesFrom(groups: map<int, seq<Card>>, v: int): seq<Group>
    requires 2 <= v <= 15
    decreases 15 - v
  {
    if v == 15 then []
    else (if v in groups then [Group(v, groups[v])] else []) + EntriesFrom(groups, v + 1)
  }

  function Sizes(gs: seq<Group>): (r: seq<int>)
    ensures |r| == |gs| && forall i :: 0 <= i < |gs| ==> r[i] == |gs[i].cards|
  {
    if gs == [] then [] else [|gs[0].cards|] + Sizes(gs[1..])
  }

  function GroupValues(gs: seq<Group>): (r: seq<int>)
    ensures |r| == |gs| && forall i :: 0 <= i < |gs| ==> r[i] == gs[i].value
  {
    if gs == [] then [] else [gs[0].value] + GroupValues(gs[1..])
  }

  /**
   * The order of the getHighCards comparator as one number: larger group
   * first, then higher value. Values lie below 16, so the group size decides
   * whenever it differs.
   */
  function GroupKey(g: Group): int {
    16 * |g.cards| + g.value
  }

  function SortGroups(gs: seq<Group>): seq<Group> {
    SortByKey(gs, GroupKey)
  }

  /** The values picked so far and what is left of the pattern. */
  datatype Picked = Picked(keys: seq<int>, pattern: seq<int>)

  /**
   * The selection loop of getHighCards: a group whose size is still in the
   * pattern contributes its value and strikes that pattern entry out with -1.
   */
  function Select(gs: seq<Group>, pattern: seq<int>): (p: Picked)
    ensures |p.pattern| == |pattern|
  {
    if gs == [] then Picked([], pattern)
    else
      var j := IndexOf(pattern, |gs[0].cards|);
      if j == -1 then Select(gs[1..], pattern)
      else
        var rest := Select(gs[1..], pattern[j := -1]);
        Picked([gs[0].value] + rest.keys, rest.pattern)
  }

  /** One step of the selection, taken at group k. */
  lemma SelectStep(gs: seq<Group>, k: nat, pattern: seq<int>)
    requires k < |gs|
    ensures var j := IndexOf(pattern, |gs[k].cards|);
      Select(gs[k..], pattern) ==
        if j == -1 then Select(gs[k + 1..], pattern)
        else Picked([gs[k].value] + Select(gs[k + 1..], pattern[j := -1]).keys,
                    Select(gs[k + 1..], pattern[j := -1]).pattern)
  {
    assert gs[k..][1..] == gs[k + 1..];
  }

  /** What remains to be selected after group k has taken, or not taken, its pattern entry. */
  lemma SelectAdvance(gs: seq<Group>, k: nat, orig: seq<int>, keys: seq<int>, pattern: seq<int>,
                      keys': seq<int>, pattern': seq<int>)
    requires k < |gs|
    requires Select(gs, orig).keys == keys + Select(gs[k..], pattern).keys
    requires Select(gs, orig).pattern == Select(gs[k..], pattern).pattern
    requires var j := IndexOf(pattern, |gs[k].cards|);
      if j == -1 then keys' == keys && pattern' == pattern
      else keys' == keys + [gs[k].value as int] && pattern' == pattern[j := -1]
    ensures Select(gs, orig).keys == keys' + Select(gs[k + 1..], pattern').keys
    ensures Select(gs, orig).pattern == Select(gs[k + 1..], pattern').pattern
  {
    SelectStep(gs, k, pattern);
    var j := IndexOf(pattern, |gs[k].cards|);
    if j != -1 {
      assert keys + ([gs[k].value as int] + Select(gs[k + 1..], pattern').keys)
        == keys' + Select(gs[k + 1..], pattern').keys;
    }
  }

  /** getHighCards(groups, pattern). */
  function HighCards(groups: map<int, seq<Card>>, pattern: seq<int>): seq<int> {
    Select(SortGroups(Entries(groups)), pattern).keys
  }

  /** The group sizes, largest first. */
  function Counts(groups: map<int, seq<Card>>): seq<int> {
    SortDesc(Sizes(Entries(groups)))
  }

  /** The bucket sizes each grouped category asks getHighCards for. */
  function Pattern(rank: int): seq<int> {
    if rank == FOUR_OF_A_KIND then [4, 1]
    else if rank == FULL_HOUSE then [3, 2]
    else if rank == THREE_OF_A_KIND then [3, 1, 1]
    else if rank == TWO_PAIR then [2, 2, 1]
    else [2, 1, 1, 1]
  }

  /**
   * The precedence chain of evaluateFiveCards on the facts it tests: flush,
   * straight, the two highest values and the bucket sizes largest first.
   */
  function Category(flush: bool, straight: bool, top: int, second: int, counts: seq<int>): (rank: int)
    ensures HIGH_CARD <= rank <= ROYAL_FLUSH
  {
    if straight && flush then
      if top == 14 && second == 13 then ROYAL_FLUSH else STRAIGHT_FLUSH
    else if At(counts, 0) == 4 then FOUR_OF_A_KIND
    else if At(counts, 0) == 3 && At(counts, 1) == 2 then FULL_HOUSE
    else if flush then FLUSH
    else if straight then STRAIGHT
    else if At(counts, 0) == 3 then THREE_OF_A_KIND
    else if At(counts, 0) == 2 && At(counts, 1) == 2 then TWO_PAIR
    else if At(counts, 0) == 2 then PAIR
    else HIGH_CARD
  }

  /** The tiebreak key each category returns. */
  function Key(rank: int, sorted: seq<Card>, groups: map<int, seq<Card>>): seq<int>
    requires |sorted| > 0
  {
    if rank == ROYAL_FLUSH || rank == FLUSH || rank == HIGH_CARD then Values(sorted)
    else if rank == STRAIGHT_FLUSH || rank == STRAIGHT then [sorted[0].value as int]
    else HighCards(groups, Pattern(rank))
  }

  /** evaluateFiveCards: the first category in precedence order that the hand meets, with its key. */
  function EvaluateFiveCards(cards: seq<Card>): Evaluation
    requires |cards| == 5
  {
    var sorted := SortCards(cards);
    assert |sorted| == 5;
    var groups := Groups(sorted);
    var rank := Category(IsFlush(sorted), Straight(sorted), sorted[0].value, sorted[1].value, Counts(groups));
    Evaluation(rank, HandName(rank), Key(rank, sorted, groups))
  }

  /** compareHands: category first, then the first key entry where the two differ. */
  function CompareHands(a: Evaluation, b: Evaluation): int
    requires a.rank != b.rank || |a.highCards| <= |b.highCards|
  {
    if a.rank != b.rank then a.rank - b.rank else CompareKeys(a.highCards, b.highCards)
  }

  function CompareKeys(x: seq<int>, y: seq<int>): int
    requires |x| <= |y|
  {
    if x == [] then 0
    else if x[0] != y[0] then x[0] - y[0]
    else CompareKeys(x[1..], y[1..])
  }
}
