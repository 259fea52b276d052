/**
 * The loops of the hand evaluator: the straight test, the bucket dictionary,
 * the key selection over a pattern array, and the search for the best five
 * cards of a hand; plus the comparison of two players' hands.
 */
module HandEvaluator {
  import opened Wrappers
  import opened Cards
  import opened Sorting
  import opened Sequences
  import opened Combinatorics
  import opened HandRanking
  import opened HandGroups
  import opened HandProperties

  /** isStraight: walks the sorted values and falls back to the wheel at the first gap. */
  method IsStraight(cards: seq<Card>) returns (b: bool)
    ensures b == Straight(cards)
  {
    var values := SortDesc(Values(cards));
    var i := 0;
    while i < |values| - 1
      invariant 0 <= i && (i == 0 || i <= |values| - 1)
      invariant forall k :: 0 <= k < i ==> values[k] == values[k + 1] + 1
    {
      if values[i] - values[i + 1] != 1 {
        if At(values, 0) == 14 && At(values, 1) == 5 && At(values, 2) == 4 && At(values, 3) == 3 && At(values, 4) == 2 {
          return true;
        }
        return false;
      }
      i := i + 1;
    }
    return true;
  }

  /** groupByRank: one pass over the cards, appending each to its value's bucket. */
  method GroupByRank(cards: seq<Card>) returns (groups: map<int, seq<Card>>)
    ensures groups == Groups(cards)
  {
    groups := map[];
    for i := 0 to |cards|
      invariant groups == Groups(cards[..i])
    {
      var card := cards[i];
      ghost var g := groups;
      FiledInSteps(g, card);
      if card.value !in groups {
        groups := groups[card.value := []];
      }
      groups := groups[card.value := groups[card.value] + [card]];
      assert groups == Filed(g, card);
      assert cards[..i + 1] == cards[..i] + [card];
      GroupsSnoc(cards[..i], card);
    }
    assert cards[..|cards|] == cards;
  }

  /**
   * getHighCards: walks the buckets in comparator order and strikes out, in
   * the caller's pattern array, the entry each picked bucket size used.
   */
  method GetHighCards(groups: map<int, seq<Card>>, pattern: array<int>) returns (highCards: seq<int>)
    modifies pattern
    ensures highCards == HighCards(groups, old(pattern[..]))
    ensures pattern[..] == Select(SortGroups(Entries(groups)), old(pattern[..])).pattern
  {
    highCards := [];
    ghost var orig := pattern[..];
    var sortedGroups := SortGroups(Entries(groups));
    assert sortedGroups[0..] == sortedGroups;
    for k := 0 to |sortedGroups|
      invariant Select(sortedGroups, orig).keys == highCards + Select(sortedGroups[k..], pattern[..]).keys
      invariant Select(sortedGroups, orig).pattern == Select(sortedGroups[k..], pattern[..]).pattern
    {
      ghost var before, taken := pattern[..], highCards;
      var count := |sortedGroups[k].cards|;
      var patternIndex := IndexOf(pattern[..], count);
      if patternIndex != -1 {
        highCards := highCards + [sortedGroups[k].value as int];
        pattern[patternIndex] := -1;
        assert pattern[..] == before[patternIndex := -1];
      }
      SelectAdvance(sortedGroups, k, orig, taken, before, highCards, pattern[..]);
    }
    assert sortedGroups[|sortedGroups|..] == [];
  }

  /** compareHands(a, b) >= 0, for evaluations it can compare. */
  predicate AtLeastAsGood(a: Evaluation, b: Evaluation) {
    (a.rank != b.rank || |a.highCards| <= |b.highCards|) && CompareHands(a, b) >= 0
  }

  /** An evaluation together with the five cards that earned it. */
  datatype Hand = Hand(eval: Evaluation, cards: seq<Card>)

  predicate AllFive(combos: seq<seq<Card>>) {
    forall c | c in combos :: |c| == 5
  }

  predicate AllWellFormed(hs: seq<Hand>) {
    forall h | h in hs :: WellFormed(h.eval)
  }

  /** Each combination with its evaluation, in enumeration order. */
  function Scored(combos: seq<seq<Card>>): (hs: seq<Hand>)
    requires AllFive(combos)
    ensures |hs| == |combos| && AllWellFormed(hs)
    ensures forall i :: 0 <= i < |combos| ==> hs[i] == Hand(EvaluateFiveCards(combos[i]), combos[i])
  {
    if combos == [] then []
    else
      EvaluationWellFormed(combos[0]);
      [Hand(EvaluateFiveCards(combos[0]), combos[0])] + Scored(combos[1..])
  }

  /** `bestRank`: 0 while no hand has been kept. */
  function RankOf(best: Option<Hand>): int {
    if best.None? then 0 else best.value.eval.rank
  }

  /** One turn of the evaluateHand loop: the new hand replaces the kept one only if it is strictly better. */
  function Step(best: Option<Hand>, h: Hand): Option<Hand>
    requires WellFormed(h.eval) && (best.Some? ==> WellFormed(best.value.eval))
  {
    if h.eval.rank > RankOf(best) then Some(h)
    else if h.eval.rank == RankOf(best) && CompareHands(h.eval, best.value.eval) > 0 then Some(h)
    else best
  }

  /** The hand kept after the first n scored combinations. */
  function BestOf(hs: seq<Hand>, n: nat): (r: Option<Hand>)
    requires AllWellFormed(hs) && n <= |hs|
    ensures r.Some? <==> n > 0
    ensures r.Some? ==> WellFormed(r.value.eval) && r.value in hs[..n]
  {
    if n == 0 then None
    else
      assert hs[n - 1] in hs;
      assert hs[..n] == hs[..n - 1] + [hs[n - 1]];
      Step(BestOf(hs, n - 1), hs[n - 1])
  }

  /** evaluateHand: no hand below five cards; otherwise the kept hand after every five-card combination. */
  function BestHand(cards: seq<Card>): Option<Hand> {
    if |cards| < 5 then None
    else
      var combos := Combinations(cards, 5);
      CombinationsAreSelections(cards, 5);
      BestOf(Scored(combos), |combos|)
  }

  /** The kept hand is at least as good as every hand seen so far. */
  lemma {:induction false} BestOfMaximal(hs: seq<Hand>, n: nat)
    requires AllWellFormed(hs) && 0 < n <= |hs|
    ensures forall j :: 0 <= j < n ==> CompareHands(BestOf(hs, n).value.eval, hs[j].eval) >= 0
  {
    var best := BestOf(hs, n).value.eval;
    assert hs[n - 1] in hs;
    var e := hs[n - 1].eval;
    CompareZeroIffEqual(best, best);
    if n > 1 {
      BestOfMaximal(hs, n - 1);
      var prev := BestOf(hs, n - 1).value.eval;
      forall j | 0 <= j < n ensures CompareHands(best, hs[j].eval) >= 0 {
        assert hs[j] in hs;
        if j < n - 1 {
          CompareTransitive(best, prev, hs[j].eval);
          if best != prev {
            CompareAntisymmetric(e, prev);
          }
        } else {
          CompareAntisymmetric(best, e);
        }
      }
    }
  }

  /**
   * evaluateHand's result: none below five cards; otherwise one of the
   * five-card combinations, evaluated, at least as good as every other.
   */
  lemma BestHandCorrect(cards: seq<Card>)
    ensures BestHand(cards).None? <==> |cards| < 5
    ensures var best := BestHand(cards);
      best.Some? ==>
        && best.value.cards in Combinations(cards, 5)
        && |best.value.cards| == 5 && best.value.eval == EvaluateFiveCards(best.value.cards)
        && forall c | c in Combinations(cards, 5) :: |c| == 5 && AtLeastAsGood(best.value.eval, EvaluateFiveCards(c))
  {
    if |cards| >= 5 {
      BestHandChosen(cards);
      BestHandMaximal(cards);
    }
  }

  /** From five cards on, the kept hand is one of the combinations, with its own evaluation. */
  lemma BestHandChosen(cards: seq<Card>)
    requires |cards| >= 5
    ensures var best := BestHand(cards);
      && best.Some? && best.value.cards in Combinations(cards, 5)
      && |best.value.cards| == 5 && best.value.eval == EvaluateFiveCards(best.value.cards)
  {
    var combos := Combinations(cards, 5);
    assert AllFive(combos) by {
      CombinationsAreSelections(cards, 5);
    }
    assert |combos| > 0 by {
      CombinationsCount(cards, 5);
      BinomialPositive(|cards|, 5);
    }
    BestOfChosen(combos);
  }

  /** The kept hand of a non-empty run is one of the scored combinations. */
  lemma BestOfChosen(combos: seq<seq<Card>>)
    requires AllFive(combos) && |combos| > 0
    ensures var best := BestOf(Scored(combos), |combos|);
      && best.Some? && best.value.cards in combos
      && |best.value.cards| == 5 && best.value.eval == EvaluateFiveCards(best.value.cards)
  {
    var hs := Scored(combos);
    var best := BestOf(hs, |hs|).value;
    assert hs[..|hs|] == hs;
    var k :| 0 <= k < |hs| && hs[k] == best;
  }

  /** From five cards on, the kept hand is at least as good as every combination. */
  lemma BestHandMaximal(cards: seq<Card>)
    requires |cards| >= 5
    ensures var best := BestHand(cards);
      && best.Some?
      && forall c | c in Combinations(cards, 5) :: |c| == 5 && AtLeastAsGood(best.value.eval, EvaluateFiveCards(c))
  {
    var combos := Combinations(cards, 5);
    assert AllFive(combos) by {
      CombinationsAreSelections(cards, 5);
    }
    assert |combos| > 0 by {
      CombinationsCount(cards, 5);
      BinomialPositive(|cards|, 5);
    }
    var hs := Scored(combos);
    BestOfMaximal(hs, |hs|);
    MaximalOverCombos(combos, BestOf(hs, |hs|).value);
  }

  /** A hand that compares at least equal to every scored combination is at least as good as each of them. */
  lemma MaximalOverCombos(combos: seq<seq<Card>>, best: Hand)
    requires AllFive(combos) && WellFormed(best.eval)
    requires forall j :: 0 <= j < |combos| ==> CompareHands(best.eval, Scored(combos)[j].eval) >= 0
    ensures forall c | c in combos :: |c| == 5 && AtLeastAsGood(best.eval, EvaluateFiveCards(c))
  {
    var hs := Scored(combos);
    forall c | c in combos ensures |c| == 5 && AtLeastAsGood(best.eval, EvaluateFiveCards(c)) {
      var j :| 0 <= j < |combos| && combos[j] == c;
      assert hs[j].eval == EvaluateFiveCards(c);
      assert hs[j] in hs;
    }
  }

  /** evaluateHand: the loop over all five-card combinations, keeping the best so far. */
  method EvaluateHand(cards: seq<Card>) returns (best: Option<Hand>)
    ensures best == BestHand(cards)
    ensures best.None? <==> |cards| < 5
    ensures best.Some? ==>
      && best.value.cards in Combinations(cards, 5)
      && |best.value.cards| == 5 && best.value.eval == EvaluateFiveCards(best.value.cards)
      && forall c | c in Combinations(cards, 5) :: |c| == 5 && AtLeastAsGood(best.value.eval, EvaluateFiveCards(c))
  {
    BestHandCorrect(cards);
    if |cards| < 5 {
      return None;
    }
    var allCombinations := GetCombinations(cards, 5);
    best := KeepBest(allCombinations);
  }

  /** The loop of evaluateHand: every combination evaluated, a strictly better one replacing the kept hand. */
  method KeepBest(allCombinations: seq<seq<Card>>) returns (best: Option<Hand>)
    requires AllFive(allCombinations)
    ensures best == BestOf(Scored(allCombinations), |allCombinations|)
  {
    ghost var hs := Scored(allCombinations);
    var bestHand: Option<Hand> := None;
    var bestRank := 0;
    for i := 0 to |allCombinations|
      invariant bestHand == BestOf(hs, i) && bestRank == RankOf(bestHand)
    {
      var combination := allCombinations[i];
      var evaluation := EvaluateFiveCards(combination);
      assert hs[i] == Hand(evaluation, combination);
      if evaluation.rank > bestRank {
        bestRank := evaluation.rank;
        bestHand := Some(Hand(evaluation, combination));
      } else if evaluation.rank == bestRank {
        var comparison := CompareHands(evaluation, bestHand.value.eval);
        if comparison > 0 {
          bestHand := Some(Hand(evaluation, combination));
        }
      }
    }
    best := bestHand;
  }

  datatype Verdict = PlayerWins | OpponentWins | Tie

  /** comparePlayerHands' answer: the winner and the hand it reports (the player's on a tie). */
  datatype Outcome = Outcome(winner: Verdict, hand: Hand)

  /**
   * comparePlayerHands. Below five cards on either side evaluateHand throws
   * before anything is compared; that is None here.
   */
  function ComparePlayerHands(player: seq<Card>, opponent: seq<Card>): Option<Outcome> {
    var p := BestHand(player);
    var o := BestHand(opponent);
    if p.None? || o.None? then None else Some(Decide(p.value, o.value))
  }

  /** The decision between two evaluated hands: rank first, then compareHands. */
  function Decide(p: Hand, o: Hand): Outcome
    requires WellFormed(p.eval) && WellFormed(o.eval)
  {
    if p.eval.rank > o.eval.rank then Outcome(PlayerWins, p)
    else if o.eval.rank > p.eval.rank then Outcome(OpponentWins, o)
    else
      var comparison := CompareHands(p.eval, o.eval);
      if comparison > 0 then Outcome(PlayerWins, p)
      else if comparison < 0 then Outcome(OpponentWins, o)
      else Outcome(Tie, p)
  }

  /** Deciding the other way round swaps the winner and names the same winning hand. */
  lemma DecideSwap(p: Hand, o: Hand)
    requires WellFormed(p.eval) && WellFormed(o.eval)
    ensures Decide(p, o).winner == PlayerWins <==> Decide(o, p).winner == OpponentWins
    ensures Decide(p, o).winner == Tie <==> Decide(o, p).winner == Tie
    ensures Decide(p, o).winner != Tie ==> Decide(p, o).hand == Decide(o, p).hand
  {
    CompareAntisymmetric(p.eval, o.eval);
  }

  /**
   * The verdict agrees with compareHands on the two best hands, a tie is
   * exactly equal evaluations, and the reported hand is the winner's.
   */
  lemma ComparePlayerHandsMeaning(player: seq<Card>, opponent: seq<Card>)
    ensures ComparePlayerHands(player, opponent).None? <==> |player| < 5 || |opponent| < 5
    ensures var r := ComparePlayerHands(player, opponent);
      r.Some? ==>
        var p := BestHand(player).value;
        var o := BestHand(opponent).value;
        && WellFormed(p.eval) && WellFormed(o.eval)
        && (r.value.winner == PlayerWins <==> CompareHands(p.eval, o.eval) > 0)
        && (r.value.winner == OpponentWins <==> CompareHands(p.eval, o.eval) < 0)
        && (r.value.winner == Tie <==> p.eval == o.eval)
        && r.value.hand == (if r.value.winner == OpponentWins then o else p)
  {
    BestHandCorrect(player);
    BestHandCorrect(opponent);
    var r := ComparePlayerHands(player, opponent);
    if r.Some? {
      CompareZeroIffEqual(BestHand(player).value.eval, BestHand(opponent).value.eval);
    }
  }

  /** Swapping the two sides swaps the winner. */
  lemma ComparePlayerHandsSwap(player: seq<Card>, opponent: seq<Card>)
    ensures var r := ComparePlayerHands(player, opponent);
      var s := ComparePlayerHands(opponent, player);
      && (r.None? <==> s.None?)
      && (r.Some? ==>
        && (r.value.winner == PlayerWins <==> s.value.winner == OpponentWins)
        && (r.value.winner == Tie <==> s.value.winner == Tie)
        && (r.value.winner != Tie ==> r.value.hand == s.value.hand))
  {
    BestHandCorrect(player);
    BestHandCorrect(opponent);
    if |player| >= 5 && |opponent| >= 5 {
      DecideSwap(BestHand(player).value, BestHand(opponent).value);
    }
  }
}
