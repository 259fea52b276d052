/**
 * The GameState object: its fields change in place, one method per
 * operation, and each method is proved to perform the matching Betting
 * transition on the table it projects to.
 */
module Game {
  import opened Wrappers
  import opened Cards
  import opened Decks
  import opened HandEvaluator
  import opened Betting
  import opened BettingProperties

  /** The forEach(card => card.reveal()) loops. */
  method RevealAll(cards: seq<Card>)
    modifies cards
    ensures forall c | c in cards :: c.isRevealed
  {
    for k := 0 to |cards|
      invariant forall j | 0 <= j < k :: cards[j].isRevealed
    {
      cards[k].Reveal();
    }
  }

  /**
   * The evaluation part of showdown: both best hands are evaluated, then
   * comparePlayerHands decides; the reported hand is the opponent's when
   * the opponent wins and the player's otherwise.
   */
  method Judge(playerCards: seq<Card>, opponentCards: seq<Card>) returns (result: Outcome)
    requires |playerCards| >= 5 && |opponentCards| >= 5
    ensures ComparePlayerHands(playerCards, opponentCards) == Some(result)
  {
    var playerEval := EvaluateHand(playerCards);
    var opponentEval := EvaluateHand(opponentCards);
    ComparePlayerHandsMeaning(playerCards, opponentCards);
    var winner := ComparePlayerHands(playerCards, opponentCards).value.winner;
    if winner == PlayerWins {
      result := Outcome(winner, playerEval.value);
    } else if winner == OpponentWins {
      result := Outcome(winner, opponentEval.value);
    } else {
      result := Outcome(winner, playerEval.value);
    }
  }

  class GameState {
    const deck: Deck
    var phase: Phase
    var pot: int
    var lastPot: int
    var currentBet: int
    var dealerPosition: int
    var currentPlayerIndex: int
    var communityCards: seq<Card>
    var winner: Option<Verdict>
    var winnerHand: WinnerHand
    var roundActions: seq<RoundAction>
    var moveHistory: seq<LogEntry>
    var player: Seat
    var opponent: Seat

    /** The state as a table value, the deck's two piles included. */
    function View(): Table
      reads this, deck
    {
      Table(phase, pot, lastPot, currentBet, dealerPosition, currentPlayerIndex, communityCards,
        winner, winnerHand, roundActions, moveHistory, player, opponent, deck.cards, deck.dealtCards)
    }

    ghost predicate Valid()
      reads this, deck, deck.cards, communityCards, player.hand, opponent.hand
    {
      deck.Valid() && Inv(View()) && Shown()
    }

    /**
     * Which cards lie face up. Every hole card and board card has been dealt
     * from the deck, whose 52 cards are distinct objects. The undealt cards
     * are face down; the board and the player's hole cards are face up; the
     * opponent's hole cards stay face down until the hand reaches SHOWDOWN,
     * and are face up once a showdown has compared the hands.
     */
    ghost predicate Shown()
      reads this, deck, deck.cards, communityCards, player.hand, opponent.hand
    {
      && deck.Valid() && deck.Standard()
      && (forall c | c in player.hand :: c in deck.dealtCards)
      && (forall c | c in opponent.hand :: c in deck.dealtCards)
      && (forall c | c in communityCards :: c in deck.dealtCards)
      && (forall c | c in deck.cards :: !c.isRevealed)
      && (forall c | c in communityCards :: c.isRevealed)
      && (forall c | c in player.hand :: c.isRevealed)
      && (phase != Phase.Showdown ==> forall c | c in opponent.hand :: !c.isRevealed)
      && (winnerHand.ShownHand? ==> forall c | c in opponent.hand :: c.isRevealed)
    }

    /** A new game over a deck shuffled with `draws`. */
    constructor (draws: seq<nat>)
      requires ValidDraws(draws, DECK_SIZE)
      ensures Valid() && deck.Standard() && fresh(deck)
      ensures View() == ResetTable(deck.cards) && deck.cards == Shuffled(deck.full, draws)
    {
      deck := new Deck();
      new;
      Reset(draws);
    }

    /** reset: a rebuilt, shuffled deck and both players back to the starting stack. */
    method Reset(draws: seq<nat>)
      requires ValidDraws(draws, DECK_SIZE)
      modifies this, deck
      ensures Valid() && deck.Standard()
      ensures View() == ResetTable(deck.cards) && deck.cards == Shuffled(deck.full, draws)
      ensures Total(View()) == 2 * INITIAL_CHIPS
    {
      deck.Reset(draws);
      ResetFields();
    }

    /** The field resets of reset, in source order: no hand in play and both stacks at INITIAL_CHIPS. */
    method ResetFields()
      requires deck.dealtCards == []
      modifies this
      ensures View() == ResetTable(deck.cards)
    {
      ResetBetting();
      ResetTurn();
      ResetRecords();
      ResetSeats();
    }

    method ResetBetting()
      modifies this
      ensures View() == old(View()).(phase := Waiting, pot := 0, lastPot := 0, currentBet := 0)
    {
      phase := Waiting;
      pot := 0;
      lastPot := 0;
      currentBet := 0;
    }

    method ResetTurn()
      modifies this
      ensures View() == old(View()).(dealerPosition := 0, currentPlayerIndex := 0, communityCards := [], winner := None)
    {
      dealerPosition := 0;
      currentPlayerIndex := 0;
      communityCards := [];
      winner := None;
    }

    method ResetRecords()
      modifies this
      ensures View() == old(View()).(winnerHand := NoHand, roundActions := [], moveHistory := [])
    {
      winnerHand := NoHand;
      roundActions := [];
      moveHistory := [];
    }

    method ResetSeats()
      modifies this
      ensures View() == old(View()).(player := NewSeat(PLAYER_NAME), opponent := NewSeat(OPPONENT_NAME))
    {
      player := NewSeat(PLAYER_NAME);
      opponent := NewSeat(OPPONENT_NAME);
    }

    /**
     * startNewHand over a deck rebuilt and shuffled with `draws`: the
     * player's hole cards are turned up, the opponent's stay face down.
     */
    method StartNewHand(draws: seq<nat>)
      requires Valid() && ValidDraws(draws, DECK_SIZE)
      modifies this, deck
      ensures Valid() && deck.Standard()
      ensures View() == StartHand(old(View()), Shuffled(deck.full, draws))
      ensures forall c | c in player.hand :: c.isRevealed
      ensures forall c | c in opponent.hand :: !c.isRevealed
    {
      ghost var before := View();
      RebuildDeck(draws);
      ghost var stock := deck.cards;
      assert View() == before.(stock := stock, dealt := []);
      DealNewHand();
      assert Inv(View()) by {
        StartHandFacts(before, stock);
      }
    }

    /** The first two lines of startNewHand: every card back in the deck, then a fresh shuffled deck. */
    method RebuildDeck(draws: seq<nat>)
      requires deck.Valid() && ValidDraws(draws, DECK_SIZE)
      modifies deck
      ensures deck.Valid() && deck.Standard() && deck.dealtCards == [] && |deck.cards| == DECK_SIZE
      ensures deck.cards == Shuffled(deck.full, draws)
      ensures forall i | 0 <= i < |deck.cards| :: fresh(deck.cards[i]) && !deck.cards[i].isRevealed
    {
      deck.ReturnAllCards();
      deck.Reset(draws);
    }

    /** The rest of startNewHand, on a full face-down deck: the resets, then the blinds and the hole cards. */
    method DealNewHand()
      requires deck.Valid() && deck.Standard() && deck.dealtCards == [] && |deck.cards| == DECK_SIZE
      requires forall i | 0 <= i < |deck.cards| :: !deck.cards[i].isRevealed
      requires dealerPosition == 0 || dealerPosition == 1
      modifies this, deck, deck.cards
      ensures deck.Valid() && deck.full == old(deck.full)
      ensures View() == Betting.OpenHand(ClearHand(old(View())))
      ensures Shown()
    {
      ClearForNewHand();
      assert forall c | c in deck.cards :: !c.isRevealed;
      OpenHand();
    }

    /** The blinds, the hole cards, and the dealer first to act. */
    method OpenHand()
      requires deck.Valid() && deck.Standard() && |deck.cards| >= 4
      requires forall c | c in deck.cards :: !c.isRevealed
      modifies this, deck, deck.cards
      ensures deck.Valid() && deck.Standard() && deck.full == old(deck.full)
      ensures View() == Betting.OpenHand(old(View()))
      ensures phase == old(phase) && communityCards == old(communityCards) && winnerHand == old(winnerHand)
      ensures forall c | c in player.hand :: c.isRevealed && c in deck.dealtCards
      ensures forall c | c in opponent.hand :: !c.isRevealed && c in deck.dealtCards
      ensures forall c | c in deck.cards :: !c.isRevealed
    {
      PostBlinds();
      DealHoleCards();
      FirstToAct();
    }

    /** The dealer seat acts first. */
    method FirstToAct()
      modifies this
      ensures View() == Betting.UpdateActivePlayer(old(View()).(currentPlayerIndex := old(dealerPosition)))
      ensures player.hand == old(player.hand) && opponent.hand == old(opponent.hand)
      ensures phase == old(phase) && communityCards == old(communityCards) && winnerHand == old(winnerHand)
    {
      currentPlayerIndex := dealerPosition;
      UpdateActivePlayer();
    }

    /** The field resets of startNewHand, in source order. */
    method ClearForNewHand()
      modifies this
      ensures View() == ClearHand(old(View()))
      ensures phase == PreFlop && communityCards == [] && winnerHand == NoHand
    {
      ClearBoard();
      ClearResult();
      ClearSeats();
    }

    method ClearBoard()
      modifies this
      ensures View() == old(View()).(phase := PreFlop, pot := 0, currentBet := 0, communityCards := [])
    {
      phase := PreFlop;
      pot := 0;
      currentBet := 0;
      communityCards := [];
    }

    method ClearResult()
      modifies this
      ensures View() == old(View()).(winner := None, winnerHand := NoHand, roundActions := [], moveHistory := [])
    {
      winner := None;
      winnerHand := NoHand;
      roundActions := [];
      moveHistory := [];
    }

    /** The dealer button passes to the other seat and both seats drop their cards, bets and flags. */
    method ClearSeats()
      modifies this
      ensures View() == old(View()).(dealerPosition := 1 - old(dealerPosition),
        player := ClearSeat(old(player)), opponent := ClearSeat(old(opponent)))
    {
      dealerPosition := 1 - dealerPosition;
      player := ClearSeat(player);
      opponent := ClearSeat(opponent);
    }

    method PostBlinds()
      modifies this
      ensures View() == Betting.PostBlinds(old(View()))
      ensures player.hand == old(player.hand) && opponent.hand == old(opponent.hand)
      ensures phase == old(phase) && communityCards == old(communityCards) && winnerHand == old(winnerHand)
    {
      var smallBlindPlayer := if dealerPosition == 0 then player else opponent;
      var bigBlindPlayer := if dealerPosition == 0 then opponent else player;
      var sbSeat := if dealerPosition == 0 then 0 else 1;
      var smallBlindAmount := PostBlind(sbSeat, SMALL_BLIND);
      var bigBlindAmount := PostBlind(1 - sbSeat, BIG_BLIND);
      currentBet := BIG_BLIND;
      moveHistory := moveHistory + [LogEntry(smallBlindPlayer.name, PostedSmallBlind(smallBlindAmount), phase)];
      moveHistory := moveHistory + [LogEntry(bigBlindPlayer.name, PostedBigBlind(bigBlindAmount), phase)];
    }

    /** One blind posted by seat `i`; the amount actually paid is returned. */
    method PostBlind(i: int, blind: int) returns (amount: int)
      modifies this
      ensures amount == Min(blind, SeatAt(old(View()), i).chips)
      ensures View() == Betting.PostBlind(old(View()), i, blind)
    {
      var s := if i == 0 then player else opponent;
      amount := Min(blind, s.chips);
      PutSeat(i, s.(chips := s.chips - amount, currentBet := amount));
      pot := pot + amount;
    }

    /** dealHoleCards: the player's two cards are turned up, the opponent's keep the face they had in the deck. */
    method DealHoleCards()
      requires deck.Valid() && deck.Standard() && |deck.cards| >= 4
      modifies this, deck, deck.cards
      ensures deck.Valid() && deck.Standard() && deck.full == old(deck.full)
      ensures View() == Betting.DealHoleCards(old(View()))
      ensures phase == old(phase) && communityCards == old(communityCards) && winnerHand == old(winnerHand)
      ensures forall c | c in player.hand :: c.isRevealed && c in deck.dealtCards
      ensures forall c | c in opponent.hand :: c in deck.dealtCards && c in old(deck.cards) && c.isRevealed == old(c.isRevealed)
      ensures forall c | c in old(deck.dealtCards) :: c in deck.dealtCards && c.isRevealed == old(c.isRevealed)
      ensures forall c | c in deck.cards :: c in old(deck.cards) && c.isRevealed == old(c.isRevealed)
    {
      DealPlayerHand();
      var hand := DealCards(2);
      opponent := opponent.(hand := hand);
    }

    /** The player's two hole cards, dealt and turned up; every other card keeps its face. */
    method DealPlayerHand()
      requires deck.Valid() && deck.Standard() && |deck.cards| >= 2
      modifies this, deck, deck.cards
      ensures deck.Valid() && deck.Standard() && deck.full == old(deck.full)
      ensures View() == Drawn(old(View()), 2).(player := old(player).(hand := TopCards(old(View()), 2)))
      ensures forall c | c in player.hand :: c.isRevealed
      ensures forall c | c in old(deck.dealtCards) :: c in deck.dealtCards && c.isRevealed == old(c.isRevealed)
      ensures forall c | c in deck.cards :: c in old(deck.cards) && c.isRevealed == old(c.isRevealed)
    {
      deck.PilesDisjoint();
      var hand := DealCards(2);
      deck.PilesDisjoint();
      player := player.(hand := hand);
      RevealAll(player.hand);
    }

    /** The deck's dealCards(count) when that many cards remain. */
    method DealCards(count: nat) returns (cards: seq<Card>)
      requires deck.Valid() && count <= |deck.cards|
      modifies deck
      ensures deck.Valid() && deck.full == old(deck.full)
      ensures cards == TopCards(old(View()), count) && View() == Drawn(old(View()), count)
      ensures forall i | 0 <= i < |cards| :: cards[i] in old(deck.cards)
      ensures deck.cards == old(deck.cards)[..|old(deck.cards)| - count]
      ensures deck.dealtCards == old(deck.dealtCards) + cards
    {
      var dealt := deck.DealCards(count);
      cards := dealt.value;
    }

    /** dealFlop: three cards onto the board, turned up; every other card keeps its face. */
    method DealFlop()
      requires deck.Valid() && deck.Standard() && |deck.cards| >= 3
      requires Shown() && phase != Phase.Showdown
      modifies this, deck, deck.cards
      ensures deck.Valid() && deck.Standard() && deck.full == old(deck.full)
      ensures View() == Betting.DealFlop(old(View()))
      ensures forall c | c in communityCards :: c.isRevealed && c in deck.dealtCards
      ensures forall c | c in old(deck.dealtCards) :: c in deck.dealtCards && c.isRevealed == old(c.isRevealed)
      ensures forall c | c in deck.cards :: c in old(deck.cards) && c.isRevealed == old(c.isRevealed)
      ensures Shown()
    {
      FlopSteps();
      DealKeepsShown();
    }

    /** The statements of dealFlop in source order: the phase, three cards turned up onto the board, the log entry, the new round. */
    method FlopSteps()
      requires deck.Valid() && deck.Standard() && |deck.cards| >= 3
      modifies this, deck, deck.cards
      ensures deck.Valid() && deck.Standard() && deck.full == old(deck.full)
      ensures View() == Betting.DealFlop(old(View()))
      ensures forall c | c in communityCards :: c.isRevealed && c in deck.dealtCards
      ensures forall c | c in old(deck.dealtCards) :: c in deck.dealtCards && c.isRevealed == old(c.isRevealed)
      ensures forall c | c in deck.cards :: c in old(deck.cards) && c.isRevealed == old(c.isRevealed)
    {
      SetPhase(Flop);
      DealBoard();
      LogDeal(DealtFlop);
      ResetBettingRound();
    }

    /** The phase a deal opens. */
    method SetPhase(p: Phase)
      modifies this
      ensures View() == old(View()).(phase := p)
    {
      phase := p;
    }

    /** The dealer's entry for a deal, logged under the current phase. */
    method LogDeal(move: Move)
      modifies this
      ensures View() == old(View()).(moveHistory := old(moveHistory) + [LogEntry(DEALER_NAME, move, old(phase))])
    {
      moveHistory := moveHistory + [LogEntry(DEALER_NAME, move, phase)];
    }

    /** The three flop cards, dealt onto the board and turned up. */
    method DealBoard()
      requires deck.Valid() && deck.Standard() && |deck.cards| >= 3
      modifies this, deck, deck.cards
      ensures deck.Valid() && deck.Standard() && deck.full == old(deck.full)
      ensures View() == Drawn(old(View()), 3).(communityCards := TopCards(old(View()), 3))
      ensures forall c | c in communityCards :: c.isRevealed && c in deck.dealtCards
      ensures forall c | c in old(deck.dealtCards) :: c in deck.dealtCards && c.isRevealed == old(c.isRevealed)
      ensures forall c | c in deck.cards :: c in old(deck.cards) && c.isRevealed == old(c.isRevealed)
    {
      deck.PilesDisjoint();
      communityCards := DealCards(3);
      deck.PilesDisjoint();
      RevealAll(communityCards);
    }

    /** dealTurn (phase Turn) and dealRiver (phase River). */
    method DealStreet(street: Phase, move: Move)
      requires deck.Valid() && deck.Standard() && |deck.cards| >= 1
      modifies this, deck, deck.cards
      ensures deck.Valid() && deck.Standard() && deck.full == old(deck.full)
      ensures View() == DealOne(old(View()), street, move)
      ensures |communityCards| > 0 && communityCards == old(communityCards) + [communityCards[|communityCards| - 1]]
      ensures deck.dealtCards == old(deck.dealtCards) + [communityCards[|communityCards| - 1]]
      ensures communityCards[|communityCards| - 1].isRevealed
      ensures forall c | c in old(deck.dealtCards) :: c in deck.dealtCards && c.isRevealed == old(c.isRevealed)
      ensures forall c | c in deck.cards :: c in old(deck.cards) && c.isRevealed == old(c.isRevealed)
    {
      SetPhase(street);
      DealStreetCard();
      LogDeal(move);
      ResetBettingRound();
    }

    /** One card off the top, turned up and pushed onto the board; every other card keeps its face. */
    method DealStreetCard()
      requires deck.Valid() && deck.Standard() && |deck.cards| >= 1
      modifies this, deck, deck.cards
      ensures deck.Valid() && deck.Standard() && deck.full == old(deck.full)
      ensures View() == BoardOne(old(View()))
      ensures |communityCards| > 0 && communityCards == old(communityCards) + [communityCards[|communityCards| - 1]]
      ensures deck.dealtCards == old(deck.dealtCards) + [communityCards[|communityCards| - 1]]
      ensures communityCards[|communityCards| - 1].isRevealed
      ensures forall c | c in old(deck.dealtCards) :: c in deck.dealtCards && c.isRevealed == old(c.isRevealed)
      ensures forall c | c in deck.cards :: c in old(deck.cards) && c.isRevealed == old(c.isRevealed)
    {
      deck.PilesDisjoint();
      var card := deck.DealCard();
      deck.PilesDisjoint();
      card.value.Reveal();
      communityCards := communityCards + [card.value];
    }

    method DealTurn()
      requires deck.Valid() && deck.Standard() && |deck.cards| >= 1
      requires Shown() && phase != Phase.Showdown
      modifies this, deck, deck.cards
      ensures deck.Valid() && deck.Standard() && deck.full == old(deck.full)
      ensures View() == DealOne(old(View()), Turn, DealtTurn)
      ensures |communityCards| > 0 && communityCards == old(communityCards) + [communityCards[|communityCards| - 1]]
      ensures deck.dealtCards == old(deck.dealtCards) + [communityCards[|communityCards| - 1]]
      ensures communityCards[|communityCards| - 1].isRevealed
      ensures forall c | c in old(deck.dealtCards) :: c in deck.dealtCards && c.isRevealed == old(c.isRevealed)
      ensures forall c | c in deck.cards :: c in old(deck.cards) && c.isRevealed == old(c.isRevealed)
      ensures Shown()
    {
      DealStreet(Turn, DealtTurn);
      DealKeepsShown();
    }

    method DealRiver()
      requires deck.Valid() && deck.Standard() && |deck.cards| >= 1
      requires Shown() && phase != Phase.Showdown
      modifies this, deck, deck.cards
      ensures deck.Valid() && deck.Standard() && deck.full == old(deck.full)
      ensures View() == DealOne(old(View()), River, DealtRiver)
      ensures |communityCards| > 0 && communityCards == old(communityCards) + [communityCards[|communityCards| - 1]]
      ensures deck.dealtCards == old(deck.dealtCards) + [communityCards[|communityCards| - 1]]
      ensures communityCards[|communityCards| - 1].isRevealed
      ensures forall c | c in old(deck.dealtCards) :: c in deck.dealtCards && c.isRevealed == old(c.isRevealed)
      ensures forall c | c in deck.cards :: c in old(deck.cards) && c.isRevealed == old(c.isRevealed)
      ensures Shown()
    {
      DealStreet(River, DealtRiver);
      DealKeepsShown();
    }

    method ResetBettingRound()
      modifies this
      ensures View() == Betting.ResetBettingRound(old(View()))
    {
      ClearBets();
      currentPlayerIndex := 1 - dealerPosition;
      UpdateActivePlayer();
    }

    /** The bets of the round just finished are cleared. */
    method ClearBets()
      modifies this
      ensures View() == old(View()).(currentBet := 0, player := old(player).(currentBet := 0),
        opponent := old(opponent).(currentBet := 0), roundActions := [])
    {
      currentBet := 0;
      player := player.(currentBet := 0);
      opponent := opponent.(currentBet := 0);
      roundActions := [];
    }

    method UpdateActivePlayer()
      modifies this
      ensures View() == Betting.UpdateActivePlayer(old(View()))
    {
      player := player.(isActive := currentPlayerIndex == 0 && !player.hasFolded && !player.isAllIn);
      opponent := opponent.(isActive := currentPlayerIndex == 1 && !opponent.hasFolded && !opponent.isAllIn);
    }

    method CheckForWinner() returns (over: bool)
      modifies this
      ensures (View(), over) == Betting.CheckForWinner(old(View()))
    {
      if player.hasFolded {
        WinByFold(OpponentWins, "Player folded");
        return true;
      }
      if opponent.hasFolded {
        WinByFold(PlayerWins, "Opponent folded");
        return true;
      }
      return false;
    }

    /** One branch of checkForWinner, with the winner and the fold notice as parameters. */
    method WinByFold(w: Verdict, notice: string)
      modifies this
      ensures View() == Betting.WinByFold(old(View()), w, notice)
    {
      ghost var t := View();
      winner := Some(w);
      phase := Phase.Showdown;
      lastPot := pot;
      assert View() == t.(winner := Some(w), phase := Phase.Showdown, lastPot := t.pot);
      PayPot(w);
      winnerHand := FoldedHand(notice);
      pot := 0;
    }

    /** The pot credited to the winner, or split on a tie with the odd chip to the opponent. */
    method PayPot(w: Verdict)
      modifies this
      ensures View() == Betting.PayPot(old(View()), w)
    {
      if w == PlayerWins {
        player := player.(chips := player.chips + pot);
      } else if w == OpponentWins {
        opponent := opponent.(chips := opponent.chips + pot);
      } else {
        var halfPot := pot / 2;
        player := player.(chips := player.chips + halfPot);
        opponent := opponent.(chips := opponent.chips + (pot - halfPot));
      }
    }

    /** showdown: the opponent's cards are turned up and the pot goes to the better hand. */
    method Showdown()
      requires CanShowDown(View()) && Shown()
      modifies this, opponent.hand
      ensures View() == ShowdownTable(old(View()))
      ensures forall c | c in opponent.hand :: c.isRevealed
      ensures opponent.hand == old(opponent.hand) && player.hand == old(player.hand)
      ensures communityCards == old(communityCards)
      ensures Shown()
    {
      ShowHands();
      label shown:
      DecideShowdown();
      TableKeepsShown@shown();
    }

    /** The rest of showdown: both best hands evaluated and compared, then the pot awarded. */
    method DecideShowdown()
      requires CanShowDown(View())
      modifies this
      ensures View() == Settle(old(View()), ShowdownOutcome(old(View())))
      ensures opponent.hand == old(opponent.hand) && player.hand == old(player.hand)
      ensures communityCards == old(communityCards) && phase == old(phase)
    {
      ghost var t := View();
      var allCards := communityCards;
      var playerCards := player.hand + allCards;
      var opponentCards := opponent.hand + allCards;
      var result := Judge(playerCards, opponentCards);
      assert result == ShowdownOutcome(t);
      Award(result);
    }

    /** The start of showdown: the phase is set and the opponent's hole cards are turned up. */
    method ShowHands()
      requires Shown()
      modifies this, opponent.hand
      ensures View() == old(View()).(phase := Phase.Showdown)
      ensures forall c | c in opponent.hand :: c.isRevealed
      ensures Shown()
    {
      deck.PilesDisjoint();
      phase := Phase.Showdown;
      RevealAll(opponent.hand);
      ShowKeepsShown();
    }

    /** The second half of showdown: the winner and the winning hand recorded, the pot paid out and emptied. */
    method Award(result: Outcome)
      modifies this
      ensures View() == Settle(old(View()), result)
      ensures opponent.hand == old(opponent.hand) && player.hand == old(player.hand)
      ensures communityCards == old(communityCards)
    {
      winner := Some(result.winner);
      winnerHand := ShownHand(result.hand);
      lastPot := pot;
      PayPot(result.winner);
      pot := 0;
    }

    /**
     * progressToNextPhase: the cards it deals land face up, and after the
     * river the showdown turns the opponent's hole cards up.
     */
    method ProgressToNextPhase()
      requires Dealable(View()) && Shown()
      modifies this, deck, deck.cards, opponent.hand
      ensures deck.Valid() && deck.full == old(deck.full)
      ensures View() == Progress(old(View()))
      ensures Shown()
      ensures old(phase) == River ==> forall c | c in opponent.hand :: c.isRevealed
    {
      deck.PilesDisjoint();
      match phase {
        case PreFlop => DealFlop();
        case Flop => DealTurn();
        case Turn => DealRiver();
        case River => Showdown();
        case _ =>
      }
    }

    /**
     * A deal during a hand keeps the face-up rules when it turns up only the
     * board, leaves the hands alone, keeps every card already dealt as it
     * was, and takes the cards from the undealt pile.
     */
    twostate lemma DealKeepsShown()
      requires old(Shown()) && old(phase) != Phase.Showdown && phase != Phase.Showdown
      requires deck.Valid() && deck.Standard()
      requires player.hand == old(player.hand) && opponent.hand == old(opponent.hand) && winnerHand == old(winnerHand)
      requires forall c | c in old(deck.dealtCards) :: c in deck.dealtCards && c.isRevealed == old(c.isRevealed)
      requires forall c | c in deck.cards :: c in old(deck.cards) && c.isRevealed == old(c.isRevealed)
      requires forall c | c in communityCards :: c in old(communityCards) || (c.isRevealed && c in deck.dealtCards)
      ensures Shown()
    {
    }

    /**
     * Showdown keeps the face-up rules: only the opponent's hole cards turn,
     * and they turn up.
     */
    twostate lemma ShowKeepsShown()
      requires old(Shown()) && unchanged(deck) && phase == Phase.Showdown
      requires player.hand == old(player.hand) && opponent.hand == old(opponent.hand) && communityCards == old(communityCards)
      requires forall c | c in opponent.hand :: c.isRevealed
      requires forall c | c in deck.cards :: c.isRevealed == old(c.isRevealed) || c in opponent.hand
      requires forall c | c in deck.dealtCards :: c.isRevealed == old(c.isRevealed) || c in opponent.hand
      ensures Shown()
    {
      deck.PilesDisjoint();
    }

    /**
     * A step that changes only the table's own fields keeps the face-up
     * rules when the hands and the board stay, the phase stays or becomes
     * showdown, and a newly recorded shown hand comes with the opponent's
     * cards face up.
     */
    twostate lemma TableKeepsShown()
      requires old(Shown()) && unchanged(deck) && unchanged(deck.cards) && unchanged(deck.dealtCards)
      requires player.hand == old(player.hand) && opponent.hand == old(opponent.hand) && communityCards == old(communityCards)
      requires phase == old(phase) || phase == Phase.Showdown
      requires winnerHand == old(winnerHand) || !winnerHand.ShownHand? || forall c | c in opponent.hand :: c.isRevealed
      ensures Shown()
    {
    }

    method NextPlayer()
      requires Dealable(View()) && Shown()
      modifies this, deck, deck.cards, opponent.hand
      ensures deck.Valid() && deck.full == old(deck.full)
      ensures View() == Betting.NextPlayer(old(View()))
      ensures Shown()
    {
      PassTurn();
      TableKeepsShown();
      if RoundComplete(View()) {
        ProgressToNextPhase();
      }
    }

    /** The turn passes to the other seat and the active flags follow; nothing else changes. */
    method PassTurn()
      modifies this
      ensures View() == Betting.UpdateActivePlayer(old(View()).(currentPlayerIndex := 1 - old(currentPlayerIndex)))
      ensures player.hand == old(player.hand) && opponent.hand == old(opponent.hand)
      ensures communityCards == old(communityCards) && phase == old(phase) && winnerHand == old(winnerHand)
    {
      currentPlayerIndex := 1 - currentPlayerIndex;
      UpdateActivePlayer();
    }

    /** Write a seat's record back into its field: 0 is the player, any other index the opponent. */
    method PutSeat(i: int, s: Seat)
      modifies this
      ensures View() == SetSeat(old(View()), i, s)
    {
      if i == 0 {
        player := s;
      } else {
        opponent := s;
      }
    }

    method ApplyFold()
      modifies this
      ensures View() == Betting.ApplyFold(old(View()))
    {
      var currentPlayer := if currentPlayerIndex == 0 then player else opponent;
      PutSeat(currentPlayerIndex, currentPlayer.(hasFolded := true, lastAction := Some(Folded)));
      var _ := CheckForWinner();
    }

    method ApplyCheck()
      modifies this
      ensures View() == Betting.ApplyCheck(old(View()))
    {
      var currentPlayer := if currentPlayerIndex == 0 then player else opponent;
      PutSeat(currentPlayerIndex, currentPlayer.(lastAction := Some(Checked)));
    }

    method ApplyCall()
      modifies this
      ensures View() == Betting.ApplyCall(old(View()))
    {
      var currentPlayer := if currentPlayerIndex == 0 then player else opponent;
      var callAmount := Min(currentBet - currentPlayer.currentBet, currentPlayer.chips);
      currentPlayer := currentPlayer.(chips := currentPlayer.chips - callAmount);
      currentPlayer := currentPlayer.(currentBet := currentPlayer.currentBet + callAmount);
      pot := pot + callAmount;
      currentPlayer := currentPlayer.(lastAction := Some(Called(callAmount)));
      if currentPlayer.chips == 0 {
        currentPlayer := currentPlayer.(isAllIn := true);
      }
      PutSeat(currentPlayerIndex, currentPlayer);
    }

    method ApplyRaise(amount: int)
      modifies this
      ensures View() == Betting.ApplyRaise(old(View()), amount)
    {
      var currentPlayer := if currentPlayerIndex == 0 then player else opponent;
      var raiseAmount := amount - currentPlayer.currentBet;
      currentPlayer := currentPlayer.(chips := currentPlayer.chips - raiseAmount);
      currentPlayer := currentPlayer.(currentBet := amount);
      pot := pot + raiseAmount;
      currentBet := amount;
      currentPlayer := currentPlayer.(lastAction := Some(RaisedTo(amount)));
      if currentPlayer.chips == 0 {
        currentPlayer := currentPlayer.(isAllIn := true);
      }
      PutSeat(currentPlayerIndex, currentPlayer);
    }

    method ApplyAllIn()
      modifies this
      ensures View() == Betting.ApplyAllIn(old(View()))
    {
      var currentPlayer := if currentPlayerIndex == 0 then player else opponent;
      var allInAmount := currentPlayer.chips;
      currentPlayer := currentPlayer.(currentBet := currentPlayer.currentBet + allInAmount);
      pot := pot + allInAmount;
      currentPlayer := currentPlayer.(chips := 0, isAllIn := true, lastAction := Some(WentAllIn(allInAmount)));
      if currentPlayer.currentBet > currentBet {
        currentBet := currentPlayer.currentBet;
      }
      PutSeat(currentPlayerIndex, currentPlayer);
    }

    /** The switch of handlePlayerAction: the move made, or None when the action is refused and nothing changed. */
    method Act(action: Action, amount: int) returns (lastAction: Option<Move>)
      modifies this
      ensures Betting.Act(old(View()), action, amount) ==
        if lastAction.Some? then Some(Acted(View(), lastAction.value)) else None
      ensures lastAction.None? ==> View() == old(View())
    {
      var currentPlayer := if currentPlayerIndex == 0 then player else opponent;
      match action {
        case Fold =>
          ApplyFold();
          lastAction := Some(Folded);
        case Check =>
          if currentBet != currentPlayer.currentBet {
            return None;
          }
          ApplyCheck();
          lastAction := Some(Checked);
        case Call =>
          lastAction := Some(Called(Min(currentBet - currentPlayer.currentBet, currentPlayer.chips)));
          ApplyCall();
        case Raise =>
          if amount < MIN_RAISE || amount > currentPlayer.chips {
            return None;
          }
          ApplyRaise(amount);
          lastAction := Some(RaisedTo(amount));
        case AllIn =>
          lastAction := Some(WentAllIn(currentPlayer.chips));
          ApplyAllIn();
        case Unknown(_) =>
          return None;
      }
    }

    /**
     * handlePlayerAction: true and the action's effect, or false with
     * nothing changed; chips are neither created nor lost.
     */
    method HandlePlayerAction(action: Action, amount: int) returns (accepted: bool)
      requires Valid()
      modifies this, deck, deck.cards, opponent.hand
      ensures Valid()
      ensures (View(), accepted) == HandleAction(old(View()), action, amount)
      ensures Total(View()) == Total(old(View()))
    {
      ghost var before := View();
      HandleActionConserves(before, action, amount);
      var currentPlayer := if currentPlayerIndex == 0 then player else opponent;
      if currentPlayer.hasFolded || currentPlayer.isAllIn {
        return false;
      }
      accepted := Respond(currentPlayer.name, action, amount);
    }

    /** handlePlayerAction for a seat that may act: the switch, then the records and the tail. */
    method Respond(name: string, action: Action, amount: int) returns (accepted: bool)
      requires Valid() && name == Current(View()).name
      requires !(Current(View()).hasFolded || Current(View()).isAllIn)
      modifies this, deck, deck.cards, opponent.hand
      ensures Valid()
      ensures (View(), accepted) == HandleAction(old(View()), action, amount)
    {
      ghost var before := View();
      HandleActionConserves(before, action, amount);
      var lastAction := Act(action, amount);
      if lastAction.None? {
        return false;
      }
      ActConserves(before, action, amount);
      ActKeepsCards(before, action, amount);
      TableKeepsShown();
      Conclude(name, action, lastAction.value);
      return true;
    }

    /** The rest of handlePlayerAction once the action is accepted: both records, then checkForWinner or nextPlayer. */
    method Conclude(name: string, action: Action, move: Move)
      requires Dealable(View()) && Shown()
      modifies this, deck, deck.cards, opponent.hand
      ensures deck.Valid() && deck.full == old(deck.full)
      ensures View() == Betting.Finish(Record(old(View()), name, action, move))
      ensures Shown()
    {
      LogAction(name, action, move);
      Finish();
    }

    /** The two records handlePlayerAction keeps of an accepted action: the round's and the move history's. */
    method LogAction(name: string, action: Action, move: Move)
      modifies this
      ensures View() == Record(old(View()), name, action, move)
    {
      roundActions := roundActions + [RoundAction(name, action)];
      moveHistory := moveHistory + [LogEntry(name, move, phase)];
    }

    /** The tail of handlePlayerAction: checkForWinner, and nextPlayer when nobody has folded. */
    method Finish()
      requires Dealable(View()) && Shown()
      modifies this, deck, deck.cards, opponent.hand
      ensures deck.Valid() && deck.full == old(deck.full)
      ensures View() == Betting.Finish(old(View()))
      ensures Shown()
    {
      var won := CheckForWinner();
      if !won {
        NextPlayer();
      }
    }
  }
}
