/**
 * A whole session as the game's driver runs it: reset, then hands dealt
 * with startNewHand and played with handlePlayerAction. The driver deals a
 * new hand only once the last one is over (phase WAITING or SHOWDOWN) and
 * submits actions only while a betting round is open; under that discipline
 * the 2 * INITIAL_CHIPS chips of reset stay on the table forever.
 */
module Session {
  import opened Wrappers
  import opened Cards
  import opened Decks
  import opened Betting
  import opened BettingProperties

  /** One call into the engine; each deck argument is a freshly built, shuffled pile. */
  datatype Request =
    | ResetGame(stock: seq<Card>)
    | NewHand(stock: seq<Card>)
    | PlayerAction(action: Action, amount: int)

  /**
   * What the driver can send: a new hand after the last one ended, an action
   * during a hand. The driver is stricter still (no new hand once a stack is
   * empty, reset only from the end-of-hand screen); the results below hold
   * for this looser discipline and so for the driver's.
   */
  predicate Allowed(t: Table, q: Request) {
    match q
    case ResetGame(stock) => true
    case NewHand(stock) => (t.phase == Waiting || t.phase == Showdown) && |stock| == DECK_SIZE
    case PlayerAction(_, _) => InHand(t.phase)
  }

  /** Outside a hand the pot has been paid out. */
  predicate Settled(t: Table) {
    !InHand(t.phase) ==> t.pot == 0
  }

  /** What holds between any two requests of a session. */
  predicate Balanced(t: Table) {
    Inv(t) && Settled(t) && Total(t) == 2 * INITIAL_CHIPS
  }

  function Apply(t: Table, q: Request): Table
    requires Inv(t) && Allowed(t, q)
  {
    match q
    case ResetGame(stock) => ResetTable(stock)
    case NewHand(stock) => StartHand(t, stock)
    case PlayerAction(action, amount) => HandleAction(t, action, amount).0
  }

  /** The table after the requests, or None if the driver would refuse one of them. */
  function Run(t: Table, qs: seq<Request>): Option<Table>
    requires Balanced(t)
    decreases |qs|
  {
    if qs == [] then Some(t)
    else if !Allowed(t, qs[0]) then None
    else
      ApplyBalanced(t, qs[0]);
      Run(Apply(t, qs[0]), qs[1..])
  }

  // ---- the pot is empty whenever no hand is in play ----

  lemma CheckForWinnerSettles(t: Table)
    requires Settled(t)
    ensures Settled(CheckForWinner(t).0)
    ensures CheckForWinner(t).1 ==> CheckForWinner(t).0.phase == Showdown
  {
  }

  lemma ProgressSettles(t: Table)
    requires Dealable(t) && Settled(t)
    ensures Settled(Progress(t))
  {
  }

  lemma NextPlayerSettles(t: Table)
    requires Dealable(t) && Settled(t)
    ensures Settled(NextPlayer(t))
  {
    var t1 := UpdateActivePlayer(t.(currentPlayerIndex := 1 - t.currentPlayerIndex));
    if RoundComplete(t1) {
      ProgressSettles(t1);
    }
  }

  lemma FinishSettles(t: Table)
    requires Dealable(t) && Settled(t)
    ensures Settled(Finish(t))
  {
    CheckForWinnerSettles(t);
    if !CheckForWinner(t).1 {
      NextPlayerSettles(t);
    }
  }

  /**
   * An action taken during a hand never leaves chips in the pot once the
   * hand is over: a fold pays the pot out, and so does the river showdown.
   */
  lemma {:induction false} HandleActionSettles(t: Table, action: Action, amount: int)
    requires Inv(t) && InHand(t.phase)
    ensures Settled(HandleAction(t, action, amount).0)
  {
    var cur := Current(t);
    if !(cur.hasFolded || cur.isAllIn) && Act(t, action, amount).Some? {
      var acted := Act(t, action, amount).value;
      ActConserves(t, action, amount);
      ActKeepsCards(t, action, amount);
      if action == Fold {
        var i := t.currentPlayerIndex;
        CheckForWinnerSettles(SetSeat(t, i, SeatAt(t, i).(hasFolded := true, lastAction := Some(Folded))));
      }
      assert Settled(acted.table);
      var t2 := Record(acted.table, cur.name, action, acted.move);
      FinishSettles(t2);
      Accepted(t, action, amount, t2);
    }
  }

  /** Every request the driver lets through keeps the session balanced. */
  lemma {:induction false} ApplyBalanced(t: Table, q: Request)
    requires Balanced(t) && Allowed(t, q)
    ensures Balanced(Apply(t, q))
  {
    match q
    case ResetGame(stock) =>
    case NewHand(stock) =>
      NewHandBalanced(t, stock);
    case PlayerAction(action, amount) =>
      HandleActionConserves(t, action, amount);
      HandleActionSettles(t, action, amount);
  }

  /** A hand dealt once the last one is over starts from a settled table and so keeps every chip. */
  lemma NewHandBalanced(t: Table, stock: seq<Card>)
    requires Balanced(t) && !InHand(t.phase) && |stock| == DECK_SIZE
    ensures Balanced(StartHand(t, stock))
  {
    StartHandFacts(t, stock);
  }

  /** The balance is kept by every run of allowed requests. */
  lemma {:induction false} RunBalanced(t: Table, qs: seq<Request>)
    requires Balanced(t)
    ensures Run(t, qs).Some? ==> Balanced(Run(t, qs).value)
    decreases |qs|
  {
    if qs != [] && Allowed(t, qs[0]) {
      ApplyBalanced(t, qs[0]);
      RunBalanced(Apply(t, qs[0]), qs[1..]);
    }
  }

  /**
   * From reset on, whatever the driver lets through: both stacks plus the
   * pot are 2 * INITIAL_CHIPS, the hand invariant holds, and the pot is
   * empty whenever no hand is in play.
   */
  lemma SessionConserves(deck: seq<Card>, qs: seq<Request>)
    ensures var r := Run(ResetTable(deck), qs);
      r.Some? ==>
        && r.value.player.chips + r.value.opponent.chips + r.value.pot == 2 * INITIAL_CHIPS
        && Inv(r.value)
        && (!InHand(r.value.phase) ==> r.value.pot == 0)
  {
    RunBalanced(ResetTable(deck), qs);
  }

  /**
   * Between hands of a session, isGameOver means that one seat holds every
   * chip of the table.
   */
  lemma GameOverTakesAll(t: Table)
    requires Balanced(t) && !InHand(t.phase)
    ensures GameOver(t) <==> t.player.chips == 2 * INITIAL_CHIPS || t.opponent.chips == 2 * INITIAL_CHIPS
  {
  }

  /**
   * Why the driver waits for the hand to end: startNewHand sets the pot to
   * zero without paying it out, so a new hand dealt over a live pot loses it.
   */
  lemma NewHandOverLivePot(t: Table, stock: seq<Card>)
    requires Inv(t) && |stock| == DECK_SIZE && t.pot > 0
    ensures Total(StartHand(t, stock)) < Total(t)
  {
    StartHandFacts(t, stock);
  }
}
