/**
 * The heads-up betting engine as pure transitions over a `Table` value: one
 * function per GameState operation. The undealt and dealt piles of the deck
 * are part of the table, so dealing is a transition too; the GameState class
 * is proved to perform exactly these transitions.
 */
module Betting {
  import opened Wrappers
  import opened Cards
  import opened Decks
  import opened HandEvaluator

  const INITIAL_CHIPS: int := 1000
  const SMALL_BLIND: int := 10
  const BIG_BLIND: int := 20
  const MIN_RAISE: int := BIG_BLIND

  const PLAYER_NAME: string := "Player"
  const OPPONENT_NAME: string := "AI Opponent"
  const DEALER_NAME: string := "Dealer"

  datatype Phase = Waiting | PreFlop | Flop | Turn | River | Showdown

  /** A requested action; anything else the caller may pass is `Unknown`. */
  datatype Action = Fold | Check | Call | Raise | AllIn | Unknown(name: string)

  /** The text of a move-log entry or of a seat's `lastAction`, kept as data. */
  datatype Move =
    | PostedSmallBlind(amount: int)
    | PostedBigBlind(amount: int)
    | DealtFlop
    | DealtTurn
    | DealtRiver
    | Folded
    | Checked
    | Called(amount: int)
    | RaisedTo(amount: int)
    | WentAllIn(amount: int)

  /** A `moveHistory` entry without its wall-clock timestamp. */
  datatype LogEntry = LogEntry(player: string, move: Move, phase: Phase)

  datatype RoundAction = RoundAction(player: string, action: Action)

  /** The record kept for each of the two players. */
  datatype Seat = Seat(
    name: string,
    chips: int,
    hand: seq<Card>,
    currentBet: int,
    hasFolded: bool,
    isAllIn: bool,
    isActive: bool,
    lastAction: Option<Move>)

  /** `winnerHand`: unset, a fold notice, or the evaluated winning hand. */
  datatype WinnerHand = NoHand | FoldedHand(name: string) | ShownHand(hand: Hand)

  datatype Table = Table(
    phase: Phase,
    pot: int,
    lastPot: int,
    currentBet: int,
    dealerPosition: int,
    currentPlayerIndex: int,
    communityCards: seq<Card>,
    winner: Option<Verdict>,
    winnerHand: WinnerHand,
    roundActions: seq<RoundAction>,
    moveHistory: seq<LogEntry>,
    player: Seat,
    opponent: Seat,
    stock: seq<Card>,
    dealt: seq<Card>)

  function Min(a: int, b: int): int {
    if a < b then a else b
  }

  /** The chips on the table: both stacks and the pot. */
  function Total(t: Table): int {
    t.player.chips + t.opponent.chips + t.pot
  }

  /** Seat 0 is the player; any other index reads the opponent. */
  function SeatAt(t: Table, i: int): Seat {
    if i == 0 then t.player else t.opponent
  }

  function SetSeat(t: Table, i: int, s: Seat): Table {
    if i == 0 then t.(player := s) else t.(opponent := s)
  }

  function Current(t: Table): Seat {
    SeatAt(t, t.currentPlayerIndex)
  }

  predicate InHand(p: Phase) {
    p == PreFlop || p == Flop || p == Turn || p == River
  }

  /** Community cards on the board in each betting phase. */
  function CommunityCount(p: Phase): nat
    requires InHand(p)
  {
    match p
    case PreFlop => 0
    case Flop => 3
    case Turn => 4
    case River => 5
  }

  /**
   * During a hand both players hold two cards, the board matches the phase
   * and the deck still holds the rest of the board, so every deal the
   * engine can reach succeeds and showdown always sees seven cards a side.
   */
  predicate Dealable(t: Table) {
    InHand(t.phase) ==>
      && |t.player.hand| == 2 && |t.opponent.hand| == 2
      && |t.communityCards| == CommunityCount(t.phase)
      && |t.communityCards| + |t.stock| >= 5
  }

  predicate Inv(t: Table) {
    && (t.currentPlayerIndex == 0 || t.currentPlayerIndex == 1)
    && (t.dealerPosition == 0 || t.dealerPosition == 1)
    && Dealable(t)
  }

  function NewSeat(name: string): Seat {
    Seat(name, INITIAL_CHIPS, [], 0, false, false, false, None)
  }

  /** reset: both players back to the starting stack, over a freshly built deck. */
  function ResetTable(stock: seq<Card>): (t: Table)
    ensures Total(t) == 2 * INITIAL_CHIPS && Inv(t)
    ensures t.phase == Waiting && t.stock == stock && t.dealt == []
    ensures t.player.chips == t.opponent.chips == INITIAL_CHIPS
  {
    Table(Waiting, 0, 0, 0, 0, 0, [], None, NoHand, [], [],
      NewSeat(PLAYER_NAME), NewSeat(OPPONENT_NAME), stock, [])
  }

  /** updateActivePlayer: only the seat to act, if still in and not all in, is active. */
  function UpdateActivePlayer(t: Table): Table {
    t.(player := t.player.(isActive := t.currentPlayerIndex == 0 && !t.player.hasFolded && !t.player.isAllIn),
       opponent := t.opponent.(isActive := t.currentPlayerIndex == 1 && !t.opponent.hasFolded && !t.opponent.isAllIn))
  }

  /** One blind: the seat pays `blind`, or its whole stack if that is less, into the pot. */
  function PostBlind(t: Table, i: int, blind: int): Table {
    var s := SeatAt(t, i);
    var amount := Min(blind, s.chips);
    SetSeat(t, i, s.(chips := s.chips - amount, currentBet := amount)).(pot := t.pot + amount)
  }

  /** postBlinds: the dealer seat posts the small blind, the other the big blind, each capped at its stack. */
  function PostBlinds(t: Table): Table {
    var sbSeat := if t.dealerPosition == 0 then 0 else 1;
    var sb := SeatAt(t, sbSeat);
    var bb := SeatAt(t, 1 - sbSeat);
    var t2 := PostBlind(PostBlind(t, sbSeat, SMALL_BLIND), 1 - sbSeat, BIG_BLIND);
    t2.(currentBet := BIG_BLIND,
        moveHistory := t.moveHistory + [LogEntry(sb.name, PostedSmallBlind(Min(SMALL_BLIND, sb.chips)), t.phase),
                                        LogEntry(bb.name, PostedBigBlind(Min(BIG_BLIND, bb.chips)), t.phase)])
  }

  /** The top `count` undealt cards, top first, as Deck.dealCards hands them out. */
  function TopCards(t: Table, count: nat): seq<Card>
    requires count <= |t.stock|
  {
    Reversed(t.stock[|t.stock| - count..])
  }

  /** The table once Deck.dealCards(count) has run. */
  function Drawn(t: Table, count: nat): Table
    requires count <= |t.stock|
  {
    t.(stock := t.stock[..|t.stock| - count], dealt := t.dealt + TopCards(t, count))
  }

  /** dealHoleCards: two cards to the player, then two to the opponent, each off the top. */
  function DealHoleCards(t: Table): Table
    requires |t.stock| >= 4
  {
    var t1 := Drawn(t, 2).(player := t.player.(hand := TopCards(t, 2)));
    Drawn(t1, 2).(opponent := t1.opponent.(hand := TopCards(t1, 2)))
  }

  function ClearSeat(s: Seat): Seat {
    s.(hand := [], currentBet := 0, hasFolded := false, isAllIn := false, lastAction := None)
  }

  /** The field resets of startNewHand; the dealer button moves to the other seat. */
  function ClearHand(t: Table): Table {
    t.(phase := PreFlop, pot := 0, currentBet := 0, communityCards := [],
      winner := None, winnerHand := NoHand, roundActions := [], moveHistory := [],
      dealerPosition := 1 - t.dealerPosition,
      player := ClearSeat(t.player), opponent := ClearSeat(t.opponent))
  }

  /** startNewHand, given the deck's newly built and shuffled pile. */
  function StartHand(t: Table, stock: seq<Card>): Table
    requires |stock| >= 4
  {
    OpenHand(ClearHand(t.(stock := stock, dealt := [])))
  }

  /** The blinds, the hole cards, and the dealer first to act. */
  function OpenHand(t: Table): Table
    requires |t.stock| >= 4
  {
    var dealt := DealHoleCards(PostBlinds(t));
    UpdateActivePlayer(dealt.(currentPlayerIndex := dealt.dealerPosition))
  }

  /** resetBettingRound: bets cleared and the seat after the dealer to act. */
  function ResetBettingRound(t: Table): Table {
    UpdateActivePlayer(t.(currentBet := 0,
      player := t.player.(currentBet := 0), opponent := t.opponent.(currentBet := 0),
      roundActions := [], currentPlayerIndex := 1 - t.dealerPosition))
  }

  function DealFlop(t: Table): Table
    requires |t.stock| >= 3
  {
    ResetBettingRound(Drawn(t, 3).(phase := Flop, communityCards := TopCards(t, 3),
      moveHistory := t.moveHistory + [LogEntry(DEALER_NAME, DealtFlop, Flop)]))
  }

  /** Deck.dealCard onto the board: the top undealt card joins the community cards. */
  function BoardOne(t: Table): Table
    requires |t.stock| >= 1
  {
    var n := |t.stock|;
    t.(communityCards := t.communityCards + [t.stock[n - 1]],
      stock := t.stock[..n - 1], dealt := t.dealt + [t.stock[n - 1]])
  }

  /** dealTurn and dealRiver: one card onto the board in the given phase. */
  function DealOne(t: Table, phase: Phase, move: Move): Table
    requires |t.stock| >= 1
  {
    ResetBettingRound(BoardOne(t.(phase := phase)).(
      moveHistory := t.moveHistory + [LogEntry(DEALER_NAME, move, phase)]))
  }

  /** The pot (which stays on the table) credited to the winner, or split on a tie with the odd chip to the opponent. */
  function PayPot(t: Table, w: Verdict): Table {
    var half := t.pot / 2;
    match w
    case PlayerWins => t.(player := t.player.(chips := t.player.chips + t.pot))
    case OpponentWins => t.(opponent := t.opponent.(chips := t.opponent.chips + t.pot))
    case Tie => t.(player := t.player.(chips := t.player.chips + half),
                   opponent := t.opponent.(chips := t.opponent.chips + (t.pot - half)))
  }

  /** The money part of a showdown: the result recorded, then the pot paid out and emptied. */
  function Settle(t: Table, outcome: Outcome): Table {
    PayPot(t.(winner := Some(outcome.winner), winnerHand := ShownHand(outcome.hand), lastPot := t.pot),
      outcome.winner).(pot := 0)
  }

  /** Both players hold enough cards for comparePlayerHands to see two hands. */
  predicate CanShowDown(t: Table) {
    |t.player.hand| + |t.communityCards| >= 5 && |t.opponent.hand| + |t.communityCards| >= 5
  }

  function ShowdownOutcome(t: Table): Outcome
    requires CanShowDown(t)
  {
    var playerCards := t.player.hand + t.communityCards;
    var opponentCards := t.opponent.hand + t.communityCards;
    ComparePlayerHandsMeaning(playerCards, opponentCards);
    ComparePlayerHands(playerCards, opponentCards).value
  }

  function ShowdownTable(t: Table): Table
    requires CanShowDown(t)
  {
    Settle(t.(phase := Showdown), ShowdownOutcome(t))
  }

  /** One branch of checkForWinner: the hand ends and the whole pot goes to `w`. */
  function WinByFold(t: Table, w: Verdict, notice: string): Table {
    PayPot(t.(winner := Some(w), phase := Showdown, lastPot := t.pot), w).(winnerHand := FoldedHand(notice), pot := 0)
  }

  /** checkForWinner: a fold hands the whole pot to the other seat and ends the hand. */
  function CheckForWinner(t: Table): (Table, bool) {
    if t.player.hasFolded then (WinByFold(t, OpponentWins, "Player folded"), true)
    else if t.opponent.hasFolded then (WinByFold(t, PlayerWins, "Opponent folded"), true)
    else (t, false)
  }

  predicate AllChecks(actions: seq<RoundAction>) {
    forall a | a in actions :: a.action == Check
  }

  /** isBettingRoundComplete. */
  predicate RoundComplete(t: Table) {
    if t.player.hasFolded || t.opponent.hasFolded then true
    else
      var playersActed := |t.roundActions| >= 2;
      var betsEqual := t.player.currentBet == t.opponent.currentBet;
      var bothChecked := |t.roundActions| >= 2 && AllChecks(t.roundActions);
      playersActed && (betsEqual || bothChecked)
  }

  /** progressToNextPhase: deal the next street, or show down after the river. */
  function Progress(t: Table): Table
    requires Dealable(t)
  {
    match t.phase
    case PreFlop => DealFlop(t)
    case Flop => DealOne(t, Turn, DealtTurn)
    case Turn => DealOne(t, River, DealtRiver)
    case River => ShowdownTable(t)
    case _ => t
  }

  /** nextPlayer: pass the turn, and move on when the round is over. */
  function NextPlayer(t: Table): Table
    requires Dealable(t)
  {
    var t1 := UpdateActivePlayer(t.(currentPlayerIndex := 1 - t.currentPlayerIndex));
    if RoundComplete(t1) then Progress(t1) else t1
  }

  /** The switch of handlePlayerAction: the changed table and the seat's new lastAction, or None when rejected. */
  datatype Acted = Acted(table: Table, move: Move)

  /** How much a call moves: the difference to the current bet, capped at the stack. */
  function CallAmount(t: Table): int {
    var cur := Current(t);
    Min(t.currentBet - cur.currentBet, cur.chips)
  }

  /** Fold: the seat gives up and checkForWinner settles the hand. */
  function ApplyFold(t: Table): Table {
    var cur := Current(t);
    CheckForWinner(SetSeat(t, t.currentPlayerIndex, cur.(hasFolded := true, lastAction := Some(Folded)))).0
  }

  function ApplyCheck(t: Table): Table {
    var cur := Current(t);
    SetSeat(t, t.currentPlayerIndex, cur.(lastAction := Some(Checked)))
  }

  function ApplyCall(t: Table): Table {
    var cur := Current(t);
    var x := CallAmount(t);
    var s := cur.(chips := cur.chips - x, currentBet := cur.currentBet + x, lastAction := Some(Called(x)));
    SetSeat(t, t.currentPlayerIndex, s.(isAllIn := s.chips == 0 || s.isAllIn)).(pot := t.pot + x)
  }

  /** A raise to `amount`: the seat's bet becomes `amount` whatever it was before. */
  function ApplyRaise(t: Table, amount: int): Table {
    var cur := Current(t);
    var x := amount - cur.currentBet;
    var s := cur.(chips := cur.chips - x, currentBet := amount, lastAction := Some(RaisedTo(amount)));
    SetSeat(t, t.currentPlayerIndex, s.(isAllIn := s.chips == 0 || s.isAllIn)).(pot := t.pot + x, currentBet := amount)
  }

  function ApplyAllIn(t: Table): Table {
    var cur := Current(t);
    var x := cur.chips;
    var s := cur.(currentBet := cur.currentBet + x, chips := 0, isAllIn := true, lastAction := Some(WentAllIn(x)));
    var raised := if s.currentBet > t.currentBet then s.currentBet else t.currentBet;
    SetSeat(t, t.currentPlayerIndex, s).(pot := t.pot + x, currentBet := raised)
  }

  /** The switch: Check needs a matched bet, Raise an amount between MIN_RAISE and the stack. */
  function Act(t: Table, action: Action, amount: int): Option<Acted> {
    var cur := Current(t);
    match action
    case Fold => Some(Acted(ApplyFold(t), Folded))
    case Check =>
      if t.currentBet == cur.currentBet then Some(Acted(ApplyCheck(t), Checked))
      else None
    case Call => Some(Acted(ApplyCall(t), Called(CallAmount(t))))
    case Raise =>
      if amount < MIN_RAISE || amount > cur.chips then None
      else Some(Acted(ApplyRaise(t, amount), RaisedTo(amount)))
    case AllIn => Some(Acted(ApplyAllIn(t), WentAllIn(cur.chips)))
    case Unknown(_) => None
  }

  /** An accepted action leaves the cards in hand, the board and the deck alone; only a fold ends the phase. */
  lemma ActKeepsCards(t: Table, action: Action, amount: int)
    requires Act(t, action, amount).Some?
    ensures var r := Act(t, action, amount).value.table;
      && (action != Fold ==> r.phase == t.phase)
      && (r.phase == t.phase || r.phase == Showdown)
      && (r.winnerHand == t.winnerHand || r.winnerHand.FoldedHand?)
      && r.communityCards == t.communityCards && r.stock == t.stock
      && r.player.hand == t.player.hand && r.opponent.hand == t.opponent.hand
  {
  }

  /** handlePlayerAction: the new table and whether the action was accepted. */
  function HandleAction(t: Table, action: Action, amount: int): (Table, bool)
    requires Dealable(t)
  {
    var cur := Current(t);
    if cur.hasFolded || cur.isAllIn then (t, false)
    else
      var acted := Act(t, action, amount);
      if acted.None? then (t, false)
      else
        ActKeepsCards(t, action, amount);
        (Finish(Record(acted.value.table, cur.name, action, acted.value.move)), true)
  }

  /** The two logs an accepted action is written to: the betting round's and the hand's. */
  function Record(t: Table, name: string, action: Action, move: Move): Table {
    t.(roundActions := t.roundActions + [RoundAction(name, action)],
       moveHistory := t.moveHistory + [LogEntry(name, move, t.phase)])
  }

  /** The end of handlePlayerAction: settle a fold, or else pass the turn. */
  function Finish(t: Table): Table
    requires Dealable(t)
  {
    var (t1, over) := CheckForWinner(t);
    if over then t1 else NextPlayer(t1)
  }

  /** isGameOver. */
  predicate GameOver(t: Table) {
    t.player.chips == 0 || t.opponent.chips == 0
  }
}
