/**
 * The computer opponent's policy: a hand-strength estimate, pot odds, a
 * rule chain tried in priority order, and a difficulty adjustment applied
 * afterwards. It reads a snapshot of the table and changes nothing. Each
 * `Math.random()` draw is a parameter: a roll in [0, 1).
 */
module AI {
  import opened Wrappers
  import opened Cards
  import opened HandRanking
  import opened HandEvaluator
  import opened Betting

  /** What a `Math.random()` call can return. */
  predicate Roll(r: real) {
    0.0 <= r < 1.0
  }

  /** The difficulty the player was built with and the two numbers the constructor derives from it. */
  datatype AIPlayer = AIPlayer(difficulty: string, aggressiveness: real, bluffFrequency: real)

  /** new AIPlayer(difficulty): 'easy' and 'hard' have their own tuning; every other string plays as 'medium'. */
  function NewAIPlayer(difficulty: string): (ai: AIPlayer)
    ensures ai.difficulty == difficulty
    ensures difficulty == "easy" ==> ai.aggressiveness == 0.2 && ai.bluffFrequency == 0.05
    ensures difficulty == "hard" ==> ai.aggressiveness == 0.6 && ai.bluffFrequency == 0.2
    ensures difficulty != "easy" && difficulty != "hard" ==> ai.aggressiveness == 0.4 && ai.bluffFrequency == 0.1
    ensures 0.0 < ai.bluffFrequency < ai.aggressiveness < 1.0
  {
    AIPlayer(difficulty,
      if difficulty == "easy" then 0.2 else if difficulty == "hard" then 0.6 else 0.4,
      if difficulty == "easy" then 0.05 else if difficulty == "hard" then 0.2 else 0.1)
  }

  // ---- hand strength ----

  /** The strength table for an evaluated category; a rank outside it reads as 0.2. */
  function RankStrength(rank: int): (s: real)
    ensures 0.2 <= s <= 1.0
  {
    if rank == ROYAL_FLUSH then 1.0
    else if rank == STRAIGHT_FLUSH then 0.95
    else if rank == FOUR_OF_A_KIND then 0.9
    else if rank == FULL_HOUSE then 0.85
    else if rank == FLUSH then 0.75
    else if rank == STRAIGHT then 0.65
    else if rank == THREE_OF_A_KIND then 0.55
    else if rank == TWO_PAIR then 0.45
    else if rank == PAIR then 0.35
    else 0.2
  }

  /** A better category always scores strictly higher. */
  lemma RankStrengthIncreasing(a: int, b: int)
    requires HIGH_CARD <= a < b <= ROYAL_FLUSH
    ensures RankStrength(a) < RankStrength(b)
  {
  }

  /** The two-card estimate: a pocket pair, or the higher of two unpaired cards. */
  function PocketStrength(c1: Card, c2: Card): real {
    var high := if c1.value >= c2.value then c1.value else c2.value;
    if c1.value == c2.value then 0.5 + (high as real / 14.0) * 0.3
    else (high as real / 14.0) * 0.4
  }

  /**
   * evaluateHandStrength. With three or four cards evaluateHand throws, and
   * so does this; that is `None`.
   */
  function EvaluateHandStrength(cards: seq<Card>): (s: Option<real>)
    ensures s.None? <==> 3 <= |cards| <= 4
    ensures s.Some? ==> 0.0 <= s.value <= 1.0
  {
    if |cards| < 2 then Some(0.0)
    else if |cards| == 2 then
      PocketStrengthBounds(cards[0], cards[1]);
      Some(PocketStrength(cards[0], cards[1]))
    else
      BestHandExists(cards);
      match BestHand(cards)
      case None => None
      case Some(h) => Some(RankStrength(h.eval.rank))
  }

  lemma BestHandExists(cards: seq<Card>)
    ensures BestHand(cards).None? <==> |cards| < 5
  {
    if |cards| >= 5 {
      BestHandChosen(cards);
    }
  }

  /**
   * A pocket pair scores in [0.5, 0.8], reaching 0.8 only with aces, and two
   * unpaired cards at most 0.4, reaching it only with an ace; so every pair
   * scores above every unpaired hand.
   */
  lemma PocketStrengthBounds(c1: Card, c2: Card)
    ensures var s := PocketStrength(c1, c2);
      if c1.value == c2.value then 0.5 <= s <= 0.8 && (s >= 0.8 <==> c1.value == 14)
      else 0.0 < s <= 0.4 && (s >= 0.4 <==> c1.value == 14 || c2.value == 14)
  {
    var high := if c1.value >= c2.value then c1.value else c2.value;
    assert 2.0 <= high as real <= 14.0;
  }

  /** Among pocket pairs, and among unpaired hands, a higher top card never scores less. */
  lemma PocketStrengthMonotone(a1: Card, a2: Card, b1: Card, b2: Card)
    requires (a1.value == a2.value) == (b1.value == b2.value)
    requires (if a1.value >= a2.value then a1.value else a2.value) <= (if b1.value >= b2.value then b1.value else b2.value)
    ensures PocketStrength(a1, a2) <= PocketStrength(b1, b2)
  {
  }

  /** From five cards on, the strength is the table entry of the best five-card hand's category. */
  lemma PostflopStrength(cards: seq<Card>)
    requires |cards| >= 5
    ensures BestHand(cards).Some?
    ensures EvaluateHandStrength(cards) == Some(RankStrength(BestHand(cards).value.eval.rank))
    ensures HIGH_CARD <= BestHand(cards).value.eval.rank <= ROYAL_FLUSH
  {
    BestHandCorrect(cards);
    CategoryInRange(BestHand(cards).value.cards);
  }

  lemma CategoryInRange(cards: seq<Card>)
    requires |cards| == 5
    ensures HIGH_CARD <= EvaluateFiveCards(cards).rank <= ROYAL_FLUSH
  {
  }

  // ---- pot odds ----

  /** A JavaScript number as far as the policy uses one: a real, or an infinity from dividing by zero. */
  datatype Number = Finite(value: real) | PositiveInfinity | NegativeInfinity

  /** `x > bound` on such a number. */
  predicate Above(x: Number, bound: real) {
    match x
    case Finite(v) => v > bound
    case PositiveInfinity => true
    case NegativeInfinity => false
  }

  /** calculatePotOdds: 1 when nothing is owed, `pot / (pot + callAmount)` otherwise. */
  function CalculatePotOdds(callAmount: int, pot: int): (odds: Number)
    ensures callAmount == 0 ==> odds == Finite(1.0)
    ensures pot >= 0 && callAmount > 0 ==> odds.Finite? && 0.0 <= odds.value < 1.0
  {
    if callAmount == 0 then Finite(1.0)
    else if pot + callAmount == 0 then (if pot > 0 then PositiveInfinity else NegativeInfinity)
    else
      var odds := pot as real / (pot + callAmount) as real;
      OddsBelowOne(pot as real, callAmount as real);
      Finite(odds)
  }

  lemma OddsBelowOne(pot: real, call: real)
    requires pot + call != 0.0
    ensures pot >= 0.0 && call > 0.0 ==> 0.0 <= pot / (pot + call) < 1.0
  {
    var q := pot / (pot + call);
    assert q * (pot + call) == pot;
  }

  /**
   * For a call of c into a pot of p, the odds beat the bound b exactly when
   * p * (1 - b) > b * c: with b = 0.3 that is 7p > 3c, with b = 0.5 it is p > c.
   */
  lemma PotOddsAbove(callAmount: int, pot: int, bound: real)
    requires callAmount > 0 && pot >= 0 && 0.0 < bound < 1.0
    ensures Above(CalculatePotOdds(callAmount, pot), bound) <==>
      pot as real * (1.0 - bound) > bound * callAmount as real
  {
    var p, d := pot as real, (pot + callAmount) as real;
    var q := p / d;
    assert q * d == p;
    if q > bound {
      assert q * d > bound * d;
    } else {
      assert q * d <= bound * d;
    }
  }

  /** The more there is to call into the same pot, the worse the odds. */
  lemma PotOddsFall(c1: int, c2: int, pot: int)
    requires 0 < c1 < c2 && pot > 0
    ensures CalculatePotOdds(c2, pot).value < CalculatePotOdds(c1, pot).value
  {
    var p := pot as real;
    var d1, d2 := (pot + c1) as real, (pot + c2) as real;
    assert CalculatePotOdds(c1, pot) == Finite(p / d1);
    assert CalculatePotOdds(c2, pot) == Finite(p / d2);
    LargerDivisor(p, d1, d2);
  }

  lemma LargerDivisor(p: real, d1: real, d2: real)
    requires p > 0.0 && 0.0 < d1 < d2
    ensures p / d2 < p / d1
  {
    var q1, q2 := p / d1, p / d2;
    assert q1 * d1 == p && q2 * d2 == p;
    assert q2 > 0.0;
    assert q2 * d1 < q2 * d2;
    assert (q1 - q2) * d1 > 0.0;
  }

  // ---- the decision ----

  /** `{ action, amount }`; FOLD and CHECK carry no amount. */
  datatype Decision = Decision(action: Action, amount: Option<int>)

  /** Math.floor(pot * (0.5 + roll * 0.5)), capped at the stack: how far beyond the table bet to raise. */
  function RaiseSize(pot: int, chips: int, raiseRoll: real): int {
    Min((pot as real * (0.5 + raiseRoll * 0.5)).Floor, chips)
  }

  /** makeDecision's rule chain, once the hand strength is known. */
  function Decide(ai: AIPlayer, t: Table, handStrength: real, bluffRoll: real, raiseRoll: real): Decision {
    var me := t.opponent;
    var potOdds := CalculatePotOdds(t.currentBet - me.currentBet, t.pot);
    var shouldBluff := bluffRoll < ai.bluffFrequency;
    var callAmount := t.currentBet - me.currentBet;
    var canCheck := t.currentBet == me.currentBet;
    var canCall := callAmount > 0 && callAmount <= me.chips;
    if (handStrength >= 0.8 || shouldBluff) && me.chips > callAmount * 2 then
      Decision(Raise, Some(t.currentBet + RaiseSize(t.pot, me.chips, raiseRoll)))
    else if handStrength >= 0.6 && canCall && Above(potOdds, 0.3) then Decision(Call, Some(callAmount))
    else if handStrength >= 0.6 && canCheck then Decision(Check, None)
    else if handStrength >= 0.4 && canCheck then Decision(Check, None)
    else if handStrength >= 0.4 && canCall && Above(potOdds, 0.5) then Decision(Call, Some(callAmount))
    else if handStrength >= 0.3 && canCheck then Decision(Check, None)
    else if handStrength < 0.3 && callAmount as real > t.pot as real * 0.3 then Decision(Fold, None)
    else if canCall && callAmount as real <= me.chips as real * 0.1 then Decision(Call, Some(callAmount))
    else Decision(Fold, None)
  }

  /** makeDecision: the opponent's hole cards and the board give the strength; `None` where that throws. */
  function MakeDecision(ai: AIPlayer, t: Table, bluffRoll: real, raiseRoll: real): (d: Option<Decision>)
    ensures d.None? <==> 3 <= |t.opponent.hand + t.communityCards| <= 4
  {
    match EvaluateHandStrength(t.opponent.hand + t.communityCards)
    case None => None
    case Some(s) => Some(Decide(ai, t, s, bluffRoll, raiseRoll))
  }

  /**
   * The decision is one of FOLD, CHECK, CALL and RAISE, never ALL_IN; CHECK
   * only when the opponent has matched the table bet; CALL only for a
   * positive amount it can pay, and carrying that amount; RAISE exactly when
   * the first rule fires, for the table bet plus the capped raise size.
   */
  lemma DecideShape(ai: AIPlayer, t: Table, s: real, bluffRoll: real, raiseRoll: real)
    ensures var d := Decide(ai, t, s, bluffRoll, raiseRoll);
      var callAmount := t.currentBet - t.opponent.currentBet;
      && d.action in {Fold, Check, Call, Raise}
      && (d.action == Check ==> t.currentBet == t.opponent.currentBet && d.amount == None)
      && (d.action == Call ==> 0 < callAmount <= t.opponent.chips && d.amount == Some(callAmount))
      && (d.action == Fold ==> d.amount == None)
      && (d.action == Raise <==> (s >= 0.8 || bluffRoll < ai.bluffFrequency) && t.opponent.chips > callAmount * 2)
      && (d.action == Raise ==> d.amount == Some(t.currentBet + RaiseSize(t.pot, t.opponent.chips, raiseRoll)))
  {
  }

  /** With a non-negative pot the raise goes beyond the table bet by half to all of the pot, but never more than the stack. */
  lemma RaiseSizeBounds(pot: int, chips: int, raiseRoll: real)
    requires pot >= 0 && Roll(raiseRoll)
    ensures var x := RaiseSize(pot, chips, raiseRoll);
      x <= chips && (x == chips || pot / 2 <= x <= pot)
  {
    var p := pot as real;
    var f := p * (0.5 + raiseRoll * 0.5);
    ScaledPot(p, raiseRoll);
    HalfBelow(pot);
    FloorBetween(f, pot / 2, pot);
    assert RaiseSize(pot, chips, raiseRoll) == Min(f.Floor, chips);
  }

  lemma HalfBelow(n: int)
    requires n >= 0
    ensures (n / 2) as real <= n as real * 0.5
  {
  }

  lemma ScaledPot(p: real, r: real)
    requires p >= 0.0 && Roll(r)
    ensures p * 0.5 <= p * (0.5 + r * 0.5) <= p
  {
    assert p * (0.5 + r * 0.5) == p * 0.5 + p * r * 0.5;
    assert 0.0 <= p * r <= p;
  }

  lemma FloorBetween(f: real, lo: int, hi: int)
    requires lo as real <= f <= hi as real
    ensures lo <= f.Floor <= hi
  {
  }

  /**
   * A weak hand (below 0.3) that cannot raise folds even when checking is
   * free: with nothing owed neither the check rule (which needs 0.3) nor
   * the final call rule (which needs something owed) applies.
   */
  lemma WeakHandFoldsUnbet(ai: AIPlayer, t: Table, s: real, bluffRoll: real, raiseRoll: real)
    requires s < 0.3 && t.pot >= 0 && t.currentBet == t.opponent.currentBet
    requires !(bluffRoll < ai.bluffFrequency) || t.opponent.chips <= 0
    ensures Decide(ai, t, s, bluffRoll, raiseRoll) == Decision(Fold, None)
  {
  }

  /** A strong hand that cannot raise never folds when it can check. */
  lemma StrongHandChecks(ai: AIPlayer, t: Table, s: real, bluffRoll: real, raiseRoll: real)
    requires s >= 0.3 && t.currentBet == t.opponent.currentBet
    ensures var d := Decide(ai, t, s, bluffRoll, raiseRoll);
      d.action == Check || d.action == Raise
  {
  }

  /** The decision depends on nothing but the opponent's cards, stack and bet, the board, the table bet and the pot. */
  lemma SnapshotOnly(ai: AIPlayer, t: Table, u: Table, bluffRoll: real, raiseRoll: real)
    requires t.opponent.hand == u.opponent.hand && t.opponent.chips == u.opponent.chips
    requires t.opponent.currentBet == u.opponent.currentBet && t.communityCards == u.communityCards
    requires t.currentBet == u.currentBet && t.pot == u.pot
    ensures MakeDecision(ai, t, bluffRoll, raiseRoll) == MakeDecision(ai, u, bluffRoll, raiseRoll)
  {
  }

  // ---- difficulty ----

  /** `decision.amount * 2`; an absent amount (undefined, giving NaN) stays absent. */
  function Doubled(amount: Option<int>): Option<int> {
    match amount
    case None => None
    case Some(a) => Some(2 * a)
  }

  /** adjustForDifficulty: 'easy' may fold anything else, 'hard' may raise a call to twice its amount. */
  function AdjustForDifficulty(ai: AIPlayer, decision: Decision, roll: real): Decision {
    if ai.difficulty == "easy" then
      if roll < 0.3 && decision.action != Fold then Decision(Fold, None) else decision
    else if ai.difficulty == "hard" then
      if roll < ai.aggressiveness && decision.action == Call then Decision(Raise, Doubled(decision.amount))
      else decision
    else decision
  }

  /**
   * On 'easy' the decision stands or becomes FOLD, on 'hard' it stands or
   * (a CALL only) becomes a RAISE to twice the call, on any other difficulty
   * it stands; the roll decides.
   */
  lemma AdjustmentCases(ai: AIPlayer, d: Decision, roll: real)
    ensures var r := AdjustForDifficulty(ai, d, roll);
      && (ai.difficulty == "easy" ==>
            (r != d <==> roll < 0.3 && d.action != Fold) && (r == d || r == Decision(Fold, None)))
      && (ai.difficulty == "hard" ==>
            if roll < ai.aggressiveness && d.action == Call then r == Decision(Raise, Doubled(d.amount)) else r == d)
      && (ai.difficulty != "easy" && ai.difficulty != "hard" ==> r == d)
  {
  }

  /**
   * For one decision and one roll, the adjustment orders the difficulties:
   * whatever 'hard' folds, 'medium' and 'easy' fold too, and whatever 'easy'
   * raises, 'medium' and 'hard' raise too.
   */
  lemma HarderIsBolder(d: Decision, roll: real)
    ensures var easy := AdjustForDifficulty(NewAIPlayer("easy"), d, roll);
      var medium := AdjustForDifficulty(NewAIPlayer("medium"), d, roll);
      var hard := AdjustForDifficulty(NewAIPlayer("hard"), d, roll);
      && (hard.action == Fold ==> medium.action == Fold) && (medium.action == Fold ==> easy.action == Fold)
      && (easy.action == Raise ==> medium.action == Raise) && (medium.action == Raise ==> hard.action == Raise)
  {
  }

  /** getDecision without its delay: the rule chain, then the difficulty adjustment. */
  function GetDecision(ai: AIPlayer, t: Table, bluffRoll: real, raiseRoll: real, adjustRoll: real): (d: Option<Decision>)
    ensures d.None? <==> MakeDecision(ai, t, bluffRoll, raiseRoll).None?
  {
    match MakeDecision(ai, t, bluffRoll, raiseRoll)
    case None => None
    case Some(decision) => Some(AdjustForDifficulty(ai, decision, adjustRoll))
  }

  /**
   * After the adjustment the opponent still never goes ALL_IN, checks only
   * when it may, and calls only what it can pay.
   */
  lemma GetDecisionShape(ai: AIPlayer, t: Table, bluffRoll: real, raiseRoll: real, adjustRoll: real)
    requires GetDecision(ai, t, bluffRoll, raiseRoll, adjustRoll).Some?
    ensures var d := GetDecision(ai, t, bluffRoll, raiseRoll, adjustRoll).value;
      var callAmount := t.currentBet - t.opponent.currentBet;
      && d.action in {Fold, Check, Call, Raise}
      && (d.action == Check ==> t.currentBet == t.opponent.currentBet)
      && (d.action == Call ==> 0 < callAmount <= t.opponent.chips && d.amount == Some(callAmount))
  {
    var s := EvaluateHandStrength(t.opponent.hand + t.communityCards).value;
    DecideShape(ai, t, s, bluffRoll, raiseRoll);
  }

  // ---- what the engine makes of a decision ----

  /** The amount argument handlePlayerAction receives: `decision.amount`, with 0 for an absent one. */
  function AmountOf(d: Decision): int {
    if d.amount.Some? then d.amount.value else 0
  }

  /** The opponent may act: it is its turn and it has neither folded nor gone all in. */
  predicate OpponentToAct(t: Table) {
    t.currentPlayerIndex == 1 && !t.opponent.hasFolded && !t.opponent.isAllIn && Dealable(t)
  }

  /** handlePlayerAction on the opponent's turn accepts every CHECK, CALL and FOLD the opponent decides on. */
  lemma DecisionsAccepted(ai: AIPlayer, t: Table, s: real, bluffRoll: real, raiseRoll: real)
    requires OpponentToAct(t)
    ensures var d := Decide(ai, t, s, bluffRoll, raiseRoll);
      d.action != Raise ==> HandleAction(t, d.action, AmountOf(d)).1
  {
    DecideShape(ai, t, s, bluffRoll, raiseRoll);
  }

  /**
   * The raise rule caps the raise size at the stack but sends the table bet
   * plus that size, and handlePlayerAction refuses a raise above the stack:
   * here the opponent has 50 chips, owes 20 into a pot of 100, and asks for 70.
   */
  lemma OversizedRaiseRefused(ai: AIPlayer, t: Table)
    requires OpponentToAct(t) && t.pot == 100 && t.currentBet == 20
    requires t.opponent.chips == 50 && t.opponent.currentBet == 0
    ensures Decide(ai, t, 0.9, 0.99, 0.0) == Decision(Raise, Some(70))
    ensures !HandleAction(t, Raise, 70).1
  {
    assert (100 as real * (0.5 + 0.0 * 0.5)).Floor == 50;
  }

  /** The raise rule with the whole request, table bet included, capped at the stack. */
  function DecideWithinStack(ai: AIPlayer, t: Table, handStrength: real, bluffRoll: real, raiseRoll: real): Decision {
    var d := Decide(ai, t, handStrength, bluffRoll, raiseRoll);
    if d.action == Raise then
      Decision(Raise, Some(Min(t.currentBet + RaiseSize(t.pot, t.opponent.chips, raiseRoll), t.opponent.chips)))
    else d
  }

  /**
   * With the cap on the whole request every decision is accepted, except a
   * raise that comes out below the one-big-blind minimum; the other rules
   * are those of makeDecision.
   */
  lemma WithinStackAccepted(ai: AIPlayer, t: Table, s: real, bluffRoll: real, raiseRoll: real)
    requires OpponentToAct(t)
    ensures var d := DecideWithinStack(ai, t, s, bluffRoll, raiseRoll);
      && (d.action != Raise ==> d == Decide(ai, t, s, bluffRoll, raiseRoll))
      && (d.action == Raise ==> d.amount.Some? && d.amount.value <= t.opponent.chips)
      && (d.action == Raise && d.amount.value >= MIN_RAISE ==> HandleAction(t, Raise, d.amount.value).1)
      && (d.action != Raise ==> HandleAction(t, d.action, AmountOf(d)).1)
  {
    DecisionsAccepted(ai, t, s, bluffRoll, raiseRoll);
  }
}
