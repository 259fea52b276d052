/** What the betting transitions guarantee: chip conservation, rejection, settlement and phase progress. */
module BettingProperties {
  import opened Wrappers
  import opened Cards
  import opened Decks
  import opened HandEvaluator
  import opened Betting

  // ---- chip conservation, piece by piece ----

  /** Paying out credits exactly the pot, which is still on the table. */
  lemma PayPotCredits(t: Table, w: Verdict)
    ensures Total(PayPot(t, w)) == Total(t) + t.pot && PayPot(t, w).pot == t.pot
  {
    match w
    case PlayerWins =>
    case OpponentWins =>
    case Tie =>
  }

  lemma SettleConserves(t: Table, o: Outcome)
    ensures Total(Settle(t, o)) == Total(t)
  {
    PayPotCredits(t.(winner := Some(o.winner), winnerHand := ShownHand(o.hand), lastPot := t.pot), o.winner);
  }

  lemma CheckForWinnerConserves(t: Table)
    requires Inv(t)
    ensures Total(CheckForWinner(t).0) == Total(t) && Inv(CheckForWinner(t).0)
    ensures !CheckForWinner(t).1 ==> CheckForWinner(t).0 == t
  {
  }

  lemma ShowdownConserves(t: Table)
    requires Inv(t) && CanShowDown(t)
    ensures Total(ShowdownTable(t)) == Total(t) && Inv(ShowdownTable(t))
    ensures ShowdownTable(t).phase == Showdown
  {
    SettleConserves(t.(phase := Showdown), ShowdownOutcome(t));
  }

  lemma DealFlopConserves(t: Table)
    requires Inv(t) && t.phase == PreFlop
    ensures Total(DealFlop(t)) == Total(t) && Inv(DealFlop(t))
  {
  }

  lemma DealOneConserves(t: Table, phase: Phase, move: Move)
    requires Inv(t) && (t.phase, phase) in {(Flop, Turn), (Turn, River)}
    ensures Total(DealOne(t, phase, move)) == Total(t) && Inv(DealOne(t, phase, move))
  {
  }

  lemma ProgressConserves(t: Table)
    requires Inv(t)
    ensures Total(Progress(t)) == Total(t) && Inv(Progress(t))
  {
    match t.phase
    case PreFlop => DealFlopConserves(t);
    case Flop => DealOneConserves(t, Turn, DealtTurn);
    case Turn => DealOneConserves(t, River, DealtRiver);
    case River => ShowdownConserves(t);
    case _ =>
  }

  lemma NextPlayerConserves(t: Table)
    requires Inv(t)
    ensures Total(NextPlayer(t)) == Total(t) && Inv(NextPlayer(t))
  {
    var t1 := UpdateActivePlayer(t.(currentPlayerIndex := 1 - t.currentPlayerIndex));
    assert Inv(t1);
    if RoundComplete(t1) {
      ProgressConserves(t1);
    }
  }

  lemma ActConserves(t: Table, action: Action, amount: int)
    requires Inv(t) && Act(t, action, amount).Some?
    ensures var r := Act(t, action, amount).value.table;
      Total(r) == Total(t) && Inv(r) && r.currentPlayerIndex == t.currentPlayerIndex
  {
    if action == Fold {
      var i := t.currentPlayerIndex;
      CheckForWinnerConserves(SetSeat(t, i, SeatAt(t, i).(hasFolded := true, lastAction := Some(Folded))));
    }
  }

  /** Every transition of handlePlayerAction, accepted or not, keeps the chips on the table and the invariant. */
  lemma HandleActionConserves(t: Table, action: Action, amount: int)
    requires Inv(t)
    ensures Total(HandleAction(t, action, amount).0) == Total(t)
    ensures Inv(HandleAction(t, action, amount).0)
  {
    var cur := Current(t);
    if !(cur.hasFolded || cur.isAllIn) && Act(t, action, amount).Some? {
      var acted := Act(t, action, amount).value;
      ActConserves(t, action, amount);
      var t2 := Record(acted.table, cur.name, action, acted.move);
      FinishConserves(t2);
      Accepted(t, action, amount, t2);
    }
  }

  /** An accepted action is logged, then finished. */
  lemma Accepted(t: Table, action: Action, amount: int, t2: Table)
    requires Dealable(t) && !(Current(t).hasFolded || Current(t).isAllIn) && Act(t, action, amount).Some?
    requires t2 == Record(Act(t, action, amount).value.table, Current(t).name, action, Act(t, action, amount).value.move)
    requires Dealable(t2)
    ensures HandleAction(t, action, amount) == (Finish(t2), true)
  {
  }

  lemma FinishConserves(t: Table)
    requires Inv(t)
    ensures Total(Finish(t)) == Total(t) && Inv(Finish(t))
  {
    CheckForWinnerConserves(t);
    if !CheckForWinner(t).1 {
      NextPlayerConserves(t);
    }
  }

  // ---- rejection ----

  /** The requests handlePlayerAction turns down. */
  predicate Rejected(t: Table, action: Action, amount: int) {
    var cur := Current(t);
    || cur.hasFolded || cur.isAllIn
    || action.Unknown?
    || (action == Check && t.currentBet != cur.currentBet)
    || (action == Raise && (amount < MIN_RAISE || amount > cur.chips))
  }

  /** An action is refused exactly in the listed cases, and a refused action changes nothing. */
  lemma HandleActionRejected(t: Table, action: Action, amount: int)
    requires Dealable(t)
    ensures !HandleAction(t, action, amount).1 <==> Rejected(t, action, amount)
    ensures !HandleAction(t, action, amount).1 ==> HandleAction(t, action, amount).0 == t
  {
  }

  // ---- what an accepted action does ----

  /**
   * The seat to act pays into the pot exactly what its bet rises by: the
   * amount still owed capped by its stack for CALL, the requested total less
   * its bet for RAISE, its whole stack for ALL_IN. The other seat is not
   * touched, and a seat left with no chips is all in.
   */
  lemma ActMovesChips(t: Table, action: Action, amount: int)
    requires Act(t, action, amount).Some? && (action == Call || action == Raise || action == AllIn)
    requires t.currentPlayerIndex == 0 || t.currentPlayerIndex == 1
    ensures var i := t.currentPlayerIndex;
      var before := SeatAt(t, i);
      var r := Act(t, action, amount).value.table;
      var after := SeatAt(r, i);
      var paid := r.pot - t.pot;
      && after.chips == before.chips - paid
      && after.currentBet == before.currentBet + paid
      && SeatAt(r, 1 - i) == SeatAt(t, 1 - i)
      && (after.chips == 0 ==> after.isAllIn)
      && after.lastAction == Some(Act(t, action, amount).value.move)
      && (action == Call ==> paid == Min(t.currentBet - before.currentBet, before.chips) && r.currentBet == t.currentBet)
      && (action == Raise ==> paid == amount - before.currentBet && r.currentBet == amount && MIN_RAISE <= amount <= before.chips)
      && (action == AllIn ==>
            && paid == before.chips && after.chips == 0
            && r.currentBet == (if after.currentBet > t.currentBet then after.currentBet else t.currentBet))
      && r.phase == t.phase && r.roundActions == t.roundActions && r.moveHistory == t.moveHistory
  {
  }

  /** CALL is accepted whatever is owed, even when nothing is. */
  lemma CallAlwaysAccepted(t: Table, amount: int)
    requires Dealable(t) && !Current(t).hasFolded && !Current(t).isAllIn
    ensures HandleAction(t, Call, amount).1
  {
  }

  /**
   * A fold by the seat to act, when nobody has folded yet, ends the hand:
   * the other seat takes the whole pot and wins. The repeated winner check
   * pays nothing more but leaves lastPot at zero.
   */
  lemma FoldSettles(t: Table, amount: int)
    requires Inv(t) && !t.player.hasFolded && !t.opponent.hasFolded
    requires !Current(t).isAllIn
    ensures var (r, accepted) := HandleAction(t, Fold, amount);
      var i := t.currentPlayerIndex;
      && accepted
      && r.phase == Showdown && r.pot == 0 && r.lastPot == 0
      && SeatAt(r, 1 - i).chips == SeatAt(t, 1 - i).chips + t.pot
      && SeatAt(r, i).chips == SeatAt(t, i).chips
      && SeatAt(r, i).hasFolded
      && r.winner == Some(if i == 0 then OpponentWins else PlayerWins)
      && r.currentPlayerIndex == i
      && r.roundActions == t.roundActions + [RoundAction(SeatAt(t, i).name, Fold)]
      && r.moveHistory == t.moveHistory + [LogEntry(SeatAt(t, i).name, Folded, Showdown)]
  {
  }

  /** checkForWinner run again right after a fold: same stacks, pot and winner; only lastPot drops to 0. */
  lemma CheckForWinnerAgain(t: Table)
    requires CheckForWinner(t).1
    ensures var once := CheckForWinner(t).0;
      CheckForWinner(once).1 && CheckForWinner(once).0 == once.(lastPot := 0)
  {
  }

  /** Every accepted action leaves one move-log entry for the seat that acted, and a round log that grew by it or was cleared by a new street. */
  lemma HandleActionRecords(t: Table, action: Action, amount: int)
    requires Inv(t)
    ensures var (r, accepted) := HandleAction(t, action, amount);
      var cur := Current(t);
      accepted ==>
        && |r.moveHistory| > |t.moveHistory|
        && r.moveHistory[..|t.moveHistory|] == t.moveHistory
        && r.moveHistory[|t.moveHistory|].player == cur.name
        && Some(r.moveHistory[|t.moveHistory|].move) == SeatAt(r, t.currentPlayerIndex).lastAction
        && (r.roundActions == t.roundActions + [RoundAction(cur.name, action)] || r.roundActions == [])
  {
    var (r, accepted) := HandleAction(t, action, amount);
    var cur := Current(t);
    if accepted {
      var acted := Act(t, action, amount).value;
      var t2 := Record(acted.table, cur.name, action, acted.move);
      ActRecordsMove(t, action, amount);
      ActConserves(t, action, amount);
      FinishKeepsLog(t2);
      Accepted(t, action, amount, t2);
      LoggedMove(t, acted.table, cur.name, action, acted.move, r);
    }
  }

  /** The entry Record appends survives a turn pass that keeps the log. */
  lemma LoggedMove(t: Table, t1: Table, name: string, action: Action, move: Move, r: Table)
    requires t.currentPlayerIndex == 0 || t.currentPlayerIndex == 1
    requires t1.moveHistory == t.moveHistory && t1.roundActions == t.roundActions
    requires SeatAt(t1, t.currentPlayerIndex).lastAction == Some(move)
    requires KeepsLog(Record(t1, name, action, move), r)
    ensures && |r.moveHistory| > |t.moveHistory|
      && r.moveHistory[..|t.moveHistory|] == t.moveHistory
      && r.moveHistory[|t.moveHistory|].player == name
      && Some(r.moveHistory[|t.moveHistory|].move) == SeatAt(r, t.currentPlayerIndex).lastAction
      && (r.roundActions == t.roundActions + [RoundAction(name, action)] || r.roundActions == [])
  {
    var m := |t.moveHistory|;
    var t2 := Record(t1, name, action, move);
    assert r.moveHistory[..m + 1] == t2.moveHistory;
    assert r.moveHistory[..m] == r.moveHistory[..m + 1][..m];
    assert r.moveHistory[m] == r.moveHistory[..m + 1][m];
  }

  lemma FinishKeepsLog(t: Table)
    requires Inv(t)
    ensures KeepsLog(t, Finish(t))
  {
    if !CheckForWinner(t).1 {
      NextPlayerKeepsLog(t);
    }
  }

  lemma ActRecordsMove(t: Table, action: Action, amount: int)
    requires Act(t, action, amount).Some? && (t.currentPlayerIndex == 0 || t.currentPlayerIndex == 1)
    ensures var r := Act(t, action, amount).value;
      && SeatAt(r.table, t.currentPlayerIndex).lastAction == Some(r.move)
      && SeatAt(r.table, t.currentPlayerIndex).name == Current(t).name
      && r.table.moveHistory == t.moveHistory && r.table.roundActions == t.roundActions
  {
  }

  /** Passing the turn keeps the move log as a prefix, leaves the last actions alone, and either keeps or clears the round log. */
  predicate KeepsLog(t: Table, r: Table) {
    && |r.moveHistory| >= |t.moveHistory| && r.moveHistory[..|t.moveHistory|] == t.moveHistory
    && r.player.lastAction == t.player.lastAction && r.opponent.lastAction == t.opponent.lastAction
    && (r.roundActions == t.roundActions || r.roundActions == [])
  }

  lemma ProgressKeepsLog(t: Table)
    requires Inv(t)
    ensures KeepsLog(t, Progress(t))
  {
    match t.phase
    case PreFlop =>
    case Flop =>
    case Turn =>
    case River => ShowdownKeepsLog(t);
    case _ =>
  }

  lemma ShowdownKeepsLog(t: Table)
    requires CanShowDown(t)
    ensures KeepsLog(t, ShowdownTable(t))
  {
  }

  lemma NextPlayerKeepsLog(t: Table)
    requires Inv(t)
    ensures KeepsLog(t, NextPlayer(t))
  {
    var t1 := Flipped(t);
    if RoundComplete(t1) {
      ProgressKeepsLog(t1);
    }
  }

  // ---- passing the turn and moving through the streets ----

  function NextPhase(p: Phase): Phase
    requires InHand(p)
  {
    match p
    case PreFlop => Flop
    case Flop => Turn
    case Turn => River
    case River => Showdown
  }

  function Flipped(t: Table): Table {
    UpdateActivePlayer(t.(currentPlayerIndex := 1 - t.currentPlayerIndex))
  }

  /** While the round is open the turn simply passes to the other seat. */
  lemma TurnPasses(t: Table)
    requires Inv(t) && !RoundComplete(Flipped(t))
    ensures var r := NextPlayer(t);
      && r.currentPlayerIndex == 1 - t.currentPlayerIndex
      && r.phase == t.phase && r.pot == t.pot && r.currentBet == t.currentBet
      && r.communityCards == t.communityCards && r.roundActions == t.roundActions
      && r.player.chips == t.player.chips && r.opponent.chips == t.opponent.chips
  {
  }

  /**
   * A completed round before the river deals the next street: three cards
   * for the flop, one for the turn and the river, off the top of the deck;
   * the bets and round log are cleared and the seat after the dealer acts.
   */
  lemma StreetAdvances(t: Table)
    requires Inv(t) && RoundComplete(Flipped(t))
    requires t.phase == PreFlop || t.phase == Flop || t.phase == Turn
    ensures StreetDealt(t, NextPlayer(t))
  {
    var t1 := Flipped(t);
    assert NextPlayer(t) == Progress(t1);
    if t.phase == PreFlop {
      FlopDealt(t1);
    } else {
      CardDealt(t1);
    }
    DealtAfterFlip(t, NextPlayer(t));
  }

  /** Passing the turn leaves everything StreetDealt looks at. */
  lemma DealtAfterFlip(t: Table, r: Table)
    requires t.phase == PreFlop || t.phase == Flop || t.phase == Turn
    requires StreetDealt(Flipped(t), r)
    ensures StreetDealt(t, r)
  {
  }

  /**
   * The next street's cards, k of them, leave the top of the stock for the
   * board and the dealt list; the bets and round log are cleared, the seat
   * after the dealer acts, the stacks and pot stay, and the dealer's move is logged.
   */
  predicate StreetDealt(t: Table, r: Table)
    requires t.phase == PreFlop || t.phase == Flop || t.phase == Turn
  {
    var n := |t.stock|;
    var k := CommunityCount(NextPhase(t.phase)) - |t.communityCards|;
    && r.phase == NextPhase(t.phase)
    && |r.communityCards| == CommunityCount(r.phase)
    && 0 < k <= n
    && r.communityCards == t.communityCards + Reversed(t.stock[n - k..])
    && r.stock == t.stock[..n - k] && r.dealt == t.dealt + Reversed(t.stock[n - k..])
    && r.currentBet == 0 && r.player.currentBet == 0 && r.opponent.currentBet == 0
    && r.roundActions == [] && r.currentPlayerIndex == 1 - t.dealerPosition
    && r.pot == t.pot && r.player.chips == t.player.chips && r.opponent.chips == t.opponent.chips
    && r.moveHistory == t.moveHistory + [LogEntry(DEALER_NAME, if k == 3 then DealtFlop else if r.phase == Turn then DealtTurn else DealtRiver, r.phase)]
  }

  lemma FlopDealt(t: Table)
    requires Dealable(t) && t.phase == PreFlop
    ensures StreetDealt(t, Progress(t))
  {
  }

  lemma CardDealt(t: Table)
    requires Dealable(t) && (t.phase == Flop || t.phase == Turn)
    ensures StreetDealt(t, Progress(t))
  {
    var n := |t.stock|;
    assert Reversed(t.stock[n - 1..]) == [t.stock[n - 1]];
  }

  /** A completed river round goes to showdown with seven cards a side. */
  lemma RiverShowsDown(t: Table)
    requires Inv(t) && RoundComplete(Flipped(t)) && t.phase == River
    ensures CanShowDown(Flipped(t))
    ensures NextPlayer(t) == ShowdownTable(Flipped(t))
    ensures |t.player.hand + t.communityCards| == 7 && |t.opponent.hand + t.communityCards| == 7
  {
  }

  /**
   * showdown: the whole pot goes to the winner comparePlayerHands names; on a
   * tie the player gets the lower half and the opponent the rest. The pot
   * ends empty and no chip is created or lost.
   */
  lemma ShowdownSettles(t: Table)
    requires CanShowDown(t)
    ensures var r := ShowdownTable(t);
      var o := ShowdownOutcome(t);
      && ComparePlayerHands(t.player.hand + t.communityCards, t.opponent.hand + t.communityCards) == Some(o)
      && r.phase == Showdown && r.pot == 0 && r.lastPot == t.pot && Total(r) == Total(t)
      && r.winner == Some(o.winner) && r.winnerHand == ShownHand(o.hand)
      && (o.winner == PlayerWins ==> r.player.chips == t.player.chips + t.pot && r.opponent.chips == t.opponent.chips)
      && (o.winner == OpponentWins ==> r.opponent.chips == t.opponent.chips + t.pot && r.player.chips == t.player.chips)
      && (o.winner == Tie ==>
            r.player.chips == t.player.chips + t.pot / 2
            && r.opponent.chips == t.opponent.chips + (t.pot - t.pot / 2)
            && t.pot / 2 <= t.pot - t.pot / 2)
  {
    ComparePlayerHandsMeaning(t.player.hand + t.communityCards, t.opponent.hand + t.communityCards);
    SettleConserves(t.(phase := Showdown), ShowdownOutcome(t));
  }

  // ---- starting a hand ----

  /** The blinds: each seat's bet and stack, the pot and the two log entries; nothing else moves. */
  lemma PostBlindsFacts(c: Table)
    requires c.dealerPosition == 0 || c.dealerPosition == 1
    ensures var r := PostBlinds(c);
      var d := c.dealerPosition;
      var sb := Min(SMALL_BLIND, SeatAt(c, d).chips);
      var bb := Min(BIG_BLIND, SeatAt(c, 1 - d).chips);
      && SeatAt(r, d) == SeatAt(c, d).(chips := SeatAt(c, d).chips - sb, currentBet := sb)
      && SeatAt(r, 1 - d) == SeatAt(c, 1 - d).(chips := SeatAt(c, 1 - d).chips - bb, currentBet := bb)
      && r == c.(player := r.player, opponent := r.opponent, pot := c.pot + sb + bb, currentBet := BIG_BLIND,
        moveHistory := c.moveHistory + [LogEntry(SeatAt(c, d).name, PostedSmallBlind(sb), c.phase),
                                        LogEntry(SeatAt(c, 1 - d).name, PostedBigBlind(bb), c.phase)])
  {
  }

  /** The hole cards: the top two undealt cards to the player, the next two to the opponent. */
  lemma DealHoleCardsFacts(p: Table)
    requires |p.stock| >= 4
    ensures var s, n := p.stock, |p.stock|;
      DealHoleCards(p) == p.(player := p.player.(hand := [s[n - 1], s[n - 2]]),
        opponent := p.opponent.(hand := [s[n - 3], s[n - 4]]),
        stock := s[..n - 4], dealt := p.dealt + [s[n - 1], s[n - 2]] + [s[n - 3], s[n - 4]])
  {
    var n := |p.stock|;
    assert Reversed(p.stock[n - 2..]) == [p.stock[n - 1], p.stock[n - 2]];
    assert Reversed(p.stock[..n - 2][n - 4..]) == [p.stock[n - 3], p.stock[n - 4]];
    assert p.stock[..n - 2][..n - 4] == p.stock[..n - 4];
  }

  /**
   * startNewHand: the dealer button moves, the dealer seat posts the small
   * blind and the other the big blind, each capped at its stack, while the
   * table bet is the full big blind; each seat gets two cards off the top
   * and the dealer seat acts first. The old pot is dropped from the table.
   */
  lemma StartHandFacts(t: Table, stock: seq<Card>)
    requires Inv(t) && |stock| >= 4
    ensures var r := StartHand(t, stock);
      var d := 1 - t.dealerPosition;
      var sb := Min(SMALL_BLIND, SeatAt(t, d).chips);
      var bb := Min(BIG_BLIND, SeatAt(t, 1 - d).chips);
      var n := |stock|;
      && r.dealerPosition == d && r.currentPlayerIndex == d
      && r.phase == PreFlop && r.communityCards == [] && r.roundActions == []
      && SeatAt(r, d).currentBet == sb && SeatAt(r, d).chips == SeatAt(t, d).chips - sb
      && SeatAt(r, 1 - d).currentBet == bb && SeatAt(r, 1 - d).chips == SeatAt(t, 1 - d).chips - bb
      && r.currentBet == BIG_BLIND && r.pot == sb + bb
      && r.player.hand == [stock[n - 1], stock[n - 2]] && r.opponent.hand == [stock[n - 3], stock[n - 4]]
      && r.stock == stock[..n - 4] && r.dealt == r.player.hand + r.opponent.hand
      && r.moveHistory == [LogEntry(SeatAt(t, d).name, PostedSmallBlind(sb), PreFlop),
                           LogEntry(SeatAt(t, 1 - d).name, PostedBigBlind(bb), PreFlop)]
      && !r.player.hasFolded && !r.opponent.hasFolded
      && Total(r) == Total(t) - t.pot
      && (n >= 9 ==> Inv(r))
  {
    var c := ClearHand(t.(stock := stock, dealt := []));
    assert StartHand(t, stock) == OpenHand(c);
    OpenHandFacts(c);
    ClearHandFacts(t, stock);
  }

  lemma ClearHandFacts(t: Table, stock: seq<Card>)
    requires t.dealerPosition == 0 || t.dealerPosition == 1
    ensures var c := ClearHand(t.(stock := stock, dealt := []));
      var d := 1 - t.dealerPosition;
      && c.dealerPosition == d && c.stock == stock && c.dealt == [] && c.pot == 0
      && c.phase == PreFlop && c.communityCards == [] && c.roundActions == [] && c.moveHistory == []
      && SeatAt(c, d).chips == SeatAt(t, d).chips && SeatAt(c, 1 - d).chips == SeatAt(t, 1 - d).chips
      && SeatAt(c, d).name == SeatAt(t, d).name && SeatAt(c, 1 - d).name == SeatAt(t, 1 - d).name
      && !c.player.hasFolded && !c.opponent.hasFolded
      && Total(c) == Total(t) - t.pot
  {
  }

  /** The blinds come from the dealer's seat (small) and the other (big), then four cards are dealt from the top. */
  lemma OpenHandFacts(c: Table)
    requires |c.stock| >= 4 && (c.dealerPosition == 0 || c.dealerPosition == 1)
    ensures var r := OpenHand(c);
      var d := c.dealerPosition;
      var sb := Min(SMALL_BLIND, SeatAt(c, d).chips);
      var bb := Min(BIG_BLIND, SeatAt(c, 1 - d).chips);
      var s := c.stock;
      var n := |s|;
      && r.dealerPosition == d && r.currentPlayerIndex == d
      && r.phase == c.phase && r.communityCards == c.communityCards && r.roundActions == c.roundActions
      && SeatAt(r, d).currentBet == sb && SeatAt(r, d).chips == SeatAt(c, d).chips - sb
      && SeatAt(r, 1 - d).currentBet == bb && SeatAt(r, 1 - d).chips == SeatAt(c, 1 - d).chips - bb
      && r.currentBet == BIG_BLIND && r.pot == c.pot + sb + bb
      && r.player.hand == [s[n - 1], s[n - 2]] && r.opponent.hand == [s[n - 3], s[n - 4]]
      && r.stock == s[..n - 4] && r.dealt == c.dealt + r.player.hand + r.opponent.hand
      && r.moveHistory == c.moveHistory + [LogEntry(SeatAt(c, d).name, PostedSmallBlind(sb), c.phase),
                                           LogEntry(SeatAt(c, 1 - d).name, PostedBigBlind(bb), c.phase)]
      && r.player.hasFolded == c.player.hasFolded && r.opponent.hasFolded == c.opponent.hasFolded
      && r.winnerHand == c.winnerHand
      && Total(r) == Total(c)
  {
    PostBlindsFacts(c);
    DealHoleCardsFacts(PostBlinds(c));
  }

  // ---- when a round is over, when the game is over ----

  /**
   * isBettingRoundComplete, with nobody folded: the round stays open until
   * two actions are logged, and then it closes when the bets match or when
   * every logged action was a check, matched or not.
   */
  lemma RoundCompleteCases(t: Table)
    requires !t.player.hasFolded && !t.opponent.hasFolded
    ensures |t.roundActions| < 2 ==> !RoundComplete(t)
    ensures |t.roundActions| >= 2 && t.player.currentBet == t.opponent.currentBet ==> RoundComplete(t)
    ensures |t.roundActions| >= 2 && t.player.currentBet != t.opponent.currentBet ==>
      (RoundComplete(t) <==> forall i | 0 <= i < |t.roundActions| :: t.roundActions[i].action == Check)
  {
    if |t.roundActions| >= 2 && t.player.currentBet != t.opponent.currentBet {
      if forall i | 0 <= i < |t.roundActions| :: t.roundActions[i].action == Check {
        assert AllChecks(t.roundActions);
      }
    }
  }

  /** A fold closes the round whatever was logged. */
  lemma FoldedRoundComplete(t: Table)
    requires t.player.hasFolded || t.opponent.hasFolded
    ensures RoundComplete(t)
  {
  }

  /** isGameOver is false at the start of a game. */
  lemma GameOverCases(stock: seq<Card>)
    ensures !GameOver(ResetTable(stock))
  {
  }
}
