# Heads-up Texas Hold'em engine, modelled in Dafny

This project models the rules engine of a two-seat poker game: the player against one computer opponent.

- **Cards.** A card has a suit, a rank (value 2..14 and its glyph) and a face-up flag.
- **The deck.** An undealt pile and a dealt pile, with a Fisher-Yates shuffle. Cards are dealt from the end of the undealt pile.
- **The hand evaluator.**
  - It enumerates every five-card subset of a hand.
  - It classifies each subset into one of ten categories with a tiebreak key.
  - It keeps the best subset and compares two players' hands.
- **The betting engine.** The `GameState` object carries the two seat records, the pot, the table bet, the phase, the turn, the dealer button and the logs. It posts blinds, validates and applies the five actions, settles folds and showdowns, and moves through pre-flop, flop, turn, river and showdown.
- **The opponent policy.** A hand-strength estimate, pot odds, a rule chain tried in priority order, and an adjustment by difficulty.

The model follows the structure of the program:

- `Card` (module `Cards`), `Deck` (module `Decks`) and `GameState` (module `Game`) are classes whose methods change their fields in place.
- Each `GameState` method is proved to perform one transition of the module `Betting`. `Betting` states the engine as pure functions over a `Table` value: the projection `View()` of the object, deck piles included.
- Each `GameState` method also keeps the face-up invariant `Shown`: undealt cards, and the opponent's hole cards before SHOWDOWN, lie face down. Board cards and the player's hole cards lie face up.
- The properties of the engine are lemmas in `BettingProperties`, about those functions:
  - chip conservation;
  - "a refused action changes nothing";
  - fold and showdown settlement;
  - street progress;
  - the action log.
- The evaluator's loops are methods in `HandEvaluator`, proved equal to the functions of `HandRanking` and `Combinatorics`. Their meaning is proved in `HandGroups` and `HandProperties`.
- The opponent policy (module `AI`) is pure. Every `Math.random()` draw is a parameter with a value in [0, 1).

Some behaviour is modelled as the code has it, not as the poker rules would have it:

- CALL is accepted even when nothing is owed.
- RAISE checks the requested total against the remaining stack.
- A raise to less than the seat's own bet refunds the difference.
- No action checks the phase.
- A fold runs `checkForWinner` twice. The second run leaves `lastPot` at 0.
- The table bet after the blinds is the full big blind, even when the big blind was capped by a short stack.
- A straight's key is its highest sorted value, so the ace-low straight A-5-4-3-2 has the key 14.
- The weak-hand rule of the opponent folds even when checking is free.

The constants are those of `utils/constants.js`:

- categories 1 (high card) to 10 (royal flush);
- blinds of 10 and 20;
- a minimum raise of 20;
- 1000 chips per seat at the start.

## Model

| member | source | states |
|---|---|---|
| Cards.Card.constructor | poker-game/src/game/Card.js:4-13 | a new card copies suit, rank, value and display from its rank and starts face down |
| Cards.Card.GetColor | poker-game/src/game/Card.js:15-17 | the colour is "red" exactly for hearts and diamonds, otherwise "black" |
| Cards.Card.GetSuitSymbol | poker-game/src/game/Card.js:19-27 | the symbol is the one-character glyph of the card's suit |
| Cards.SuitSymbolsDistinct | poker-game/src/game/Card.js:20-25 | the four glyphs are single characters and pairwise different: equal glyphs mean equal suits |
| Cards.Card.ToString | poker-game/src/game/Card.js:29-31 | the text is the rank display followed by the suit glyph |
| Cards.Card.Equals | poker-game/src/game/Card.js:33-35 | true exactly when suit and value agree; the face-up flag plays no part |
| Cards.EqualsIsEquivalence | poker-game/src/game/Card.js:33-35 | equality of cards is reflexive, symmetric and transitive |
| Cards.Card.Reveal | poker-game/src/game/Card.js:37-39 | the card is face up afterwards and only that card changes |
| Cards.Card.Hide | poker-game/src/game/Card.js:41-43 | the card is face down afterwards and only that card changes |
| Decks.Deck.constructor | poker-game/src/game/Deck.js:5-9 | a new deck holds 52 fresh face-down cards in build order and nothing is dealt |
| Decks.Deck.Initialize | poker-game/src/game/Deck.js:11-20 | the undealt pile holds one new card per (suit, rank) pair, suit by suit in rank order; the dealt pile is empty |
| Decks.StandardFacesOnePerPair | poker-game/src/game/Deck.js:15-19 | each (suit, value) pair sits at exactly one position of the freshly built deck |
| Decks.StandardFacesDistinct | poker-game/src/game/Deck.js:15-19 | the 52 faces of a built deck are pairwise different |
| Decks.Deck.Shuffle | poker-game/src/game/Deck.js:22-27 | the undealt pile becomes the Fisher-Yates shuffle of itself under the given swap indices, the same cards in a new order; the dealt pile is untouched |
| Decks.FisherYatesPermutes | poker-game/src/game/Deck.js:23-26 | every pass of swaps i, i-1, ..., 1 keeps the multiset of cards |
| Decks.ShuffledPermutes | poker-game/src/game/Deck.js:22-27 | a full shuffle keeps the length and the multiset of the pile |
| Decks.FacesOfFisherYates | poker-game/src/game/Deck.js:22-27 | reading the faces after a shuffle equals shuffling the faces |
| Decks.Deck.DealCard | poker-game/src/game/Deck.js:29-36 | on an empty pile it fails and changes nothing; otherwise it removes the last undealt card, appends it to the dealt pile and returns it |
| Decks.Deck.DealCards | poker-game/src/game/Deck.js:38-44 | with enough cards it returns the last `count` undealt cards, last first, and moves them to the dealt pile; otherwise it moves every remaining card and fails |
| Decks.Deck.Reset | poker-game/src/game/Deck.js:46-49 | a rebuilt deck shuffled with the given indices: 52 fresh face-down cards, one per face, none dealt |
| Decks.Deck.GetCardsRemaining | poker-game/src/game/Deck.js:51-53 | the number of undealt cards, which with the dealt ones makes 52 |
| Decks.Deck.PoolSize | poker-game/src/game/Deck.js:33-34 | a valid deck always holds 52 cards across its two piles |
| Decks.Deck.ReturnCard | poker-game/src/game/Deck.js:55-61 | a card that was not dealt changes nothing; a dealt card leaves the dealt pile at its first position and goes on top of the undealt pile |
| Decks.Deck.ReturnAllCards | poker-game/src/game/Deck.js:63-67 | the dealt pile ends empty and its cards are appended to the undealt pile, the most recently dealt first |
| Decks.Deck.NoCardInBothPiles | poker-game/src/game/Deck.js:33-34 | no card is in both piles at once |
| Decks.Deck.PilesDisjoint | poker-game/src/game/Deck.js:29-44 | no undealt card is also in the dealt pile |
| Decks.Deck.EqualsIsIdentity | poker-game/src/game/Deck.js:15-19 | within one built deck two cards are `equals` exactly when they are the same card |
| Decks.ReversedPermutes | poker-game/src/game/Deck.js:63-67 | reversing keeps the multiset of cards |
| Sequences.IndexOf | poker-game/src/game/HandEvaluator.js:164 | `indexOf`: -1 exactly when the element is absent, otherwise its first position |
| Sorting.SortByKeyCorrect | poker-game/src/game/HandEvaluator.js:36 | the stable descending sort returns a permutation ordered by key, highest first |
| Sorting.SortSortedIsIdentity | poker-game/src/game/HandEvaluator.js:128 | sorting a sequence that is already ordered changes nothing |
| Sorting.SortDescCorrect | poker-game/src/game/HandEvaluator.js:57 | the numeric descending sort is ordered and a permutation |
| Sorting.SortedDescUnique | poker-game/src/game/HandEvaluator.js:57 | two descending sequences with the same elements are equal |
| HandRanking.IsFlush | poker-game/src/game/HandEvaluator.js:122-125 | true exactly when every card has the same suit |
| HandEvaluator.IsStraight | poker-game/src/game/HandEvaluator.js:127-140 | the index loop returns whether the sorted values run down by one or are exactly A, 5, 4, 3, 2 |
| HandProperties.StraightMeaning | poker-game/src/game/HandEvaluator.js:127-140 | a hand is a straight exactly when its values are h, h-1, ..., h-4 for some h, or A, 5, 4, 3, 2, in any order |
| HandProperties.StraightOfSorted | poker-game/src/game/HandEvaluator.js:39 | sorting the hand first does not change whether it is a straight |
| HandProperties.FlushMeaning | poker-game/src/game/HandEvaluator.js:38 | on the sorted hand the flush test holds exactly when all five cards share a suit |
| HandEvaluator.GroupByRank | poker-game/src/game/HandEvaluator.js:142-151 | the loop builds exactly the bucket dictionary of the cards by value |
| HandGroups.GroupsSnoc | poker-game/src/game/HandEvaluator.js:144-149 | one more card joins the end of its value's bucket, opening the bucket if needed |
| HandGroups.GroupsMeaning | poker-game/src/game/HandEvaluator.js:142-151 | the keys are exactly the values present; each bucket holds exactly the cards of its value, each as many times as the hand does, and no other card |
| HandGroups.EntriesSizesSum | poker-game/src/game/HandEvaluator.js:142-151 | the bucket sizes add up to the number of cards |
| HandGroups.SortedGroupsMembers | poker-game/src/game/HandEvaluator.js:155-160 | each sorted bucket is the nonempty list of cards of one value of the hand |
| HandGroups.SortedGroupsComplete | poker-game/src/game/HandEvaluator.js:155-160 | every value of the hand has its bucket among the sorted buckets |
| HandGroups.SortedGroupsDistinct | poker-game/src/game/HandEvaluator.js:155-160 | no value has two buckets |
| HandGroups.SortedGroupsSizesDescend | poker-game/src/game/HandEvaluator.js:156-158 | the comparator puts larger buckets first |
| HandGroups.CountsAreSortedSizes | poker-game/src/game/HandEvaluator.js:57 | `counts` is the list of bucket sizes in comparator order; its entries are positive and sum to the hand size |
| HandGroups.Profiles | poker-game/src/game/HandEvaluator.js:57 | five cards split into buckets as 5, 4-1, 3-2, 3-1-1, 2-2-1, 2-1-1-1 or 1-1-1-1-1 |
| HandGroups.SelectAll | poker-game/src/game/HandEvaluator.js:162-169 | a pattern with room for every bucket size picks every bucket's value, in bucket order |
| HandEvaluator.GetHighCards | poker-game/src/game/HandEvaluator.js:153-172 | the loop returns the selected key, and leaves in the caller's pattern array the entries struck out with -1 |
| HandRanking.SelectAdvance | poker-game/src/game/HandEvaluator.js:162-169 | after each loop turn, the values kept plus what the rest of the buckets select equal the whole selection |
| HandRanking.Category | poker-game/src/game/HandEvaluator.js:42-119 | the precedence chain always yields a category between high card and royal flush |
| HandProperties.CategoryMeaning | poker-game/src/game/HandEvaluator.js:42-119 | the category in terms of the hand itself: straight flush (royal when the top two are ace and king), four of a kind, full house, flush, straight, three of a kind, two pair, pair, high card, each exactly when the earlier ones fail |
| HandProperties.TwoPairsInCounts | poker-game/src/game/HandEvaluator.js:99 | the two-pair test on `counts` holds exactly when two different values each have two cards |
| HandProperties.HasCountInCounts | poker-game/src/game/HandEvaluator.js:57-113 | some value has exactly k cards exactly when k is among the bucket sizes |
| HandProperties.FullKeys | poker-game/src/game/HandEvaluator.js:43-54 | royal flush, flush and high card keys are all five values descending; straight and straight flush keys are the top sorted value alone |
| HandProperties.WheelKey | poker-game/src/game/HandEvaluator.js:83-88 | the ace-low straight A-5-4-3-2 is a straight or straight flush with the key [14] |
| HandProperties.RunKey | poker-game/src/game/HandEvaluator.js:83-88 | a run h..h-4 in more than one suit is a straight with the key [h] |
| HandProperties.GroupedBranch | poker-game/src/game/HandEvaluator.js:59-113 | a grouped category's key is what getHighCards selects with that category's pattern, and `counts` meets that category's test |
| HandProperties.GroupedKey | poker-game/src/game/HandEvaluator.js:57-113 | a grouped category's key is the bucket values in comparator order, and the bucket sizes are exactly its pattern |
| HandProperties.GroupedKeyMeaning | poker-game/src/game/HandEvaluator.js:57-113 | in a grouped category key entry i is a value held by exactly pattern[i] cards; no value repeats; among equal sizes the higher value comes first; every value of the hand appears |
| HandProperties.EvaluationWellFormed | poker-game/src/game/HandEvaluator.js:35-120 | every evaluation has a category in 1..10, that category's name, and a key of that category's length |
| HandProperties.KeyEntriesAreValues | poker-game/src/game/HandEvaluator.js:35-120 | every key entry is the value of one of the cards |
| HandProperties.CompareKeysMeaning | poker-game/src/game/HandEvaluator.js:179-185 | the key comparison is 0 exactly for a common prefix, otherwise it has the sign of the first differing entry |
| HandProperties.CompareHandsMeaning | poker-game/src/game/HandEvaluator.js:174-186 | positive exactly when the first hand has the higher category, or the same one and the higher key at the first difference; negative for the reverse; 0 for the same category and key |
| HandProperties.CompareAntisymmetric | poker-game/src/game/HandEvaluator.js:174-186 | swapping the arguments negates the comparison |
| HandProperties.CompareZeroIffEqual | poker-game/src/game/HandEvaluator.js:174-186 | 0 exactly for equal evaluations |
| HandProperties.CompareTransitive | poker-game/src/game/HandEvaluator.js:174-186 | "at least as good" and "better" chain through three evaluations |
| Combinatorics.GetCombinations | poker-game/src/game/HandEvaluator.js:188-206 | the recursion returns the selections in enumeration order: C(n, k) of them, each of k cards drawn from the input |
| Combinatorics.CombineInto | poker-game/src/game/HandEvaluator.js:191-202 | one call of `combine` appends to the result list exactly the selections that extend `combo` from position `start` |
| Combinatorics.CombinationsCount | poker-game/src/game/HandEvaluator.js:188-206 | there are C(n, k) selections |
| Combinatorics.SevenChooseFive | poker-game/src/game/HandEvaluator.js:188-206 | seven cards give 21 five-card hands |
| Combinatorics.CombinationsAreSelections | poker-game/src/game/HandEvaluator.js:188-206 | each selection has k elements and its multiset is within the input's |
| Combinatorics.CombinationsComplete | poker-game/src/game/HandEvaluator.js:188-206 | every choice of k strictly increasing positions is among the selections |
| HandEvaluator.EvaluateHand | poker-game/src/game/HandEvaluator.js:4-33 | none below five cards; otherwise one of the five-card combinations with its own evaluation, at least as good as every combination |
| HandEvaluator.KeepBest | poker-game/src/game/HandEvaluator.js:13-30 | the loop keeps what the step function keeps: a hand replaces the kept one only when it has a higher category, or the same category and a positive comparison |
| HandEvaluator.BestOfMaximal | poker-game/src/game/HandEvaluator.js:13-30 | after n turns the kept hand compares at least equal to each of the first n hands |
| HandEvaluator.BestHandCorrect | poker-game/src/game/HandEvaluator.js:4-33 | the result is absent exactly below five cards; otherwise it is one of the combinations, evaluated, at least as good as all of them |
| HandEvaluator.ComparePlayerHandsMeaning | poker-game/src/game/HandEvaluator.js:208-226 | the player wins exactly when compareHands of the two best hands is positive, and the opponent exactly when it is negative; a tie is exactly equal evaluations; the reported hand is the winner's, or the player's on a tie |
| HandEvaluator.ComparePlayerHandsSwap | poker-game/src/game/HandEvaluator.js:208-226 | swapping the two sides swaps the winner and reports the same winning hand |
| Game.Judge | poker-game/src/game/GameState.js:346-362 | the showdown's evaluation: the outcome is what comparePlayerHands returns for the two seven-card hands |
| Game.GameState.constructor | poker-game/src/game/GameState.js:13-16 | a new game over a freshly built and shuffled deck, both seats at 1000 chips, phase WAITING |
| Game.GameState.Reset | poker-game/src/game/GameState.js:18-53 | the deck is rebuilt and shuffled, every field takes its starting value, and 2000 chips are on the table |
| Game.GameState.ResetFields | poker-game/src/game/GameState.js:20-52 | the field assignments of reset give the starting table |
| Game.GameState.StartNewHand | poker-game/src/game/GameState.js:55-87 | the state becomes the StartHand transition over the rebuilt, shuffled deck; the invariant and the face-up rules hold, the player's hole cards are face up and the opponent's face down |
| Game.GameState.RebuildDeck | poker-game/src/game/GameState.js:56-57 | every card goes back and a fresh deck is built and shuffled: 52 new face-down cards in the shuffled order, one per face, none dealt |
| Game.GameState.DealNewHand | poker-game/src/game/GameState.js:59-86 | on a full face-down deck: the resets, blinds and hole cards as OpenHand after ClearHand, and afterwards the face-up rules hold |
| Game.GameState.ClearForNewHand | poker-game/src/game/GameState.js:59-80 | the phase, pot, bets, board, result, logs and seat records are cleared and the dealer button moves |
| Game.GameState.OpenHand | poker-game/src/game/GameState.js:82-86 | blinds, hole cards, the dealer seat to act and the active flags, as the OpenHand transition; on a face-down stock the player's cards end face up and the opponent's and the stock's face down, all hole cards dealt |
| Game.GameState.FirstToAct | poker-game/src/game/GameState.js:85-86 | the dealer seat is to act and the active flags follow; hands, board and phase are untouched |
| Game.GameState.PostBlinds | poker-game/src/game/GameState.js:89-120 | the state becomes the PostBlinds transition |
| Game.GameState.PostBlind | poker-game/src/game/GameState.js:93-102 | the seat pays the blind, or its whole stack if that is less, into the pot, and that amount is returned |
| Game.GameState.DealHoleCards | poker-game/src/game/GameState.js:122-127 | the state becomes the DealHoleCards transition; the player's cards are face up, the opponent's keep the face they had in the stock, and no other card changes face |
| Game.GameState.DealPlayerHand | poker-game/src/game/GameState.js:123-124 | the top two cards become the player's hand, face up; every card dealt before and every card left keeps its face |
| Game.GameState.DealCards | poker-game/src/game/Deck.js:38-44 | the deck's dealCards inside the game: the top cards, top first, move from the undealt to the dealt pile |
| Game.GameState.DealFlop | poker-game/src/game/GameState.js:129-143 | the state becomes the DealFlop transition; the three board cards are face up and dealt, no other card changes face, and the face-up rules are kept |
| Game.GameState.FlopSteps | poker-game/src/game/GameState.js:129-143 | the statements of dealFlop in order give the DealFlop transition; the board is face up and no other card changes face |
| Game.GameState.DealBoard | poker-game/src/game/GameState.js:131-132 | three cards off the top become the board, face up; every other card keeps its face |
| Game.GameState.DealTurn | poker-game/src/game/GameState.js:145-160 | the state becomes the DealOne transition into TURN; the new board card is face up, no other card changes face, and the face-up rules are kept |
| Game.GameState.DealRiver | poker-game/src/game/GameState.js:162-177 | the state becomes the DealOne transition into RIVER; the new board card is face up, no other card changes face, and the face-up rules are kept |
| Game.GameState.DealStreet | poker-game/src/game/GameState.js:145-177 | one card off the top goes face up onto the board, the dealer's move is logged and the betting round is reset; no other card changes face |
| Game.GameState.DealStreetCard | poker-game/src/game/GameState.js:147-149 | the top card is dealt, turned up and pushed onto the board; every other card keeps its face |
| Game.GameState.ResetBettingRound | poker-game/src/game/GameState.js:179-186 | bets and round log cleared, the seat after the dealer to act, the active flags updated |
| Game.GameState.UpdateActivePlayer | poker-game/src/game/GameState.js:188-191 | a seat is active exactly when it is to act and has neither folded nor gone all in |
| Game.GameState.HandlePlayerAction | poker-game/src/game/GameState.js:193-276 | the new state and the answer are those of the HandleAction transition, the invariant and the face-up rules are kept, and the chips on the table are unchanged |
| Game.GameState.Respond | poker-game/src/game/GameState.js:200-275 | for a seat that may act: the HandleAction transition, with the invariant and the face-up rules kept |
| Game.GameState.Act | poker-game/src/game/GameState.js:200-259 | the switch: the seat's move as the Act transition, or no move and nothing changed when the action is refused |
| Game.GameState.ApplyFold | poker-game/src/game/GameState.js:201-205 | the seat folds and checkForWinner settles the hand |
| Game.GameState.ApplyCheck | poker-game/src/game/GameState.js:207-213 | the seat records a check |
| Game.GameState.ApplyCall | poker-game/src/game/GameState.js:215-225 | the seat pays what it owes, capped at its stack, and is all in if that empties it |
| Game.GameState.ApplyRaise | poker-game/src/game/GameState.js:232-241 | the seat's bet and the table bet become the amount, the difference is paid, and the seat is all in if that empties it |
| Game.GameState.ApplyAllIn | poker-game/src/game/GameState.js:244-255 | the whole stack is paid, the seat is all in, and the table bet rises to the seat's bet if that is higher |
| Game.GameState.LogAction | poker-game/src/game/GameState.js:261-269 | one entry appended to the round log and one to the move history |
| Game.GameState.Conclude | poker-game/src/game/GameState.js:261-273 | an accepted action is recorded in the round and the move history, then the Finish transition runs; the face-up rules are kept |
| Game.GameState.Finish | poker-game/src/game/GameState.js:271-273 | checkForWinner, then nextPlayer when nobody has folded, as the Finish transition; the face-up rules are kept |
| Game.GameState.NextPlayer | poker-game/src/game/GameState.js:278-285 | the state becomes the NextPlayer transition and the face-up rules are kept |
| Game.GameState.PassTurn | poker-game/src/game/GameState.js:279-280 | the turn passes to the other seat and the active flags follow; hands, board, phase and shown hand are untouched |
| Game.GameState.ProgressToNextPhase | poker-game/src/game/GameState.js:300-315 | the state becomes the Progress transition and the face-up rules are kept; after the river the opponent's cards are face up |
| Game.GameState.CheckForWinner | poker-game/src/game/GameState.js:317-339 | the state and the answer are those of the CheckForWinner transition |
| Game.GameState.PayPot | poker-game/src/game/GameState.js:366-374 | the pot is credited to the winner, or split with the odd chip to the opponent |
| Game.GameState.Showdown | poker-game/src/game/GameState.js:341-377 | the state becomes the ShowdownTable transition; the opponent's cards are face up, hands and board stay, and the face-up rules are kept |
| Game.GameState.ShowHands | poker-game/src/game/GameState.js:342-344 | the phase becomes SHOWDOWN and the opponent's hole cards are face up; the face-up rules are kept |
| Game.GameState.DecideShowdown | poker-game/src/game/GameState.js:346-376 | the table is settled with the outcome of comparing the two seven-card hands; hands, board and phase stay |
| Game.GameState.Award | poker-game/src/game/GameState.js:354-376 | the winner and the shown hand are recorded, lastPot takes the pot, the pot is paid as Settle says and emptied; hands and board stay |
| Game.GameState.DealKeepsShown | poker-game/src/game/GameState.js:129-177 | a deal that turns up only new board cards taken from the stock, and keeps every dealt card's face, keeps the face-up rules |
| Game.GameState.ShowKeepsShown | poker-game/src/game/GameState.js:342-344 | turning up the opponent's hole cards at showdown keeps the face-up rules |
| Game.GameState.TableKeepsShown | poker-game/src/game/GameState.js:193-339 | a step that changes only the table's own fields keeps the face-up rules unless it leaves showdown or records a shown hand with the opponent face down |
| Betting.ResetTable | poker-game/src/game/GameState.js:18-53 | the starting table: phase WAITING, 1000 chips a seat, 2000 in all, the invariant holds |
| Betting.ActKeepsCards | poker-game/src/game/GameState.js:200-259 | an accepted action leaves the hands, the board and the deck alone, and only a fold changes the phase, to SHOWDOWN |
| BettingProperties.HandleActionConserves | poker-game/src/game/GameState.js:193-276 | every handlePlayerAction, accepted or refused, keeps both stacks plus the pot and keeps the invariant |
| BettingProperties.HandleActionRejected | poker-game/src/game/GameState.js:196-198 | an action is refused exactly when the seat has folded or is all in, the action is unknown, CHECK faces an unmatched bet, or RAISE is below 20 or above the stack; a refused action changes nothing |
| BettingProperties.Accepted | poker-game/src/game/GameState.js:261-275 | an accepted action is logged, then finished, and the answer is true |
| BettingProperties.ActMovesChips | poker-game/src/game/GameState.js:215-255 | CALL, RAISE and ALL_IN move into the pot exactly what the seat's bet rises by: the capped amount owed, the requested total less the bet, or the whole stack; the other seat is untouched; a seat left with no chips is all in |
| BettingProperties.ActConserves | poker-game/src/game/GameState.js:200-259 | the switch keeps the chips on the table, the invariant and the turn |
| BettingProperties.CallAlwaysAccepted | poker-game/src/game/GameState.js:215-225 | CALL by a seat still in is accepted whatever is owed, even nothing |
| BettingProperties.FoldSettles | poker-game/src/game/GameState.js:201-205 | a fold with nobody folded yet ends the hand: the other seat takes the whole pot and wins, the pot and lastPot end at 0, the phase is SHOWDOWN, the turn stays, and both logs grow by the fold |
| BettingProperties.CheckForWinnerAgain | poker-game/src/game/GameState.js:271 | the repeated winner check after a fold pays nothing more and only sets lastPot to 0 |
| BettingProperties.CheckForWinnerConserves | poker-game/src/game/GameState.js:317-339 | settling a fold keeps the chips on the table and the invariant; with no fold nothing changes |
| BettingProperties.PayPotCredits | poker-game/src/game/GameState.js:366-374 | paying out adds exactly the pot to the seats' chips; clearing the pot is left to the caller, as in the source |
| BettingProperties.SettleConserves | poker-game/src/game/GameState.js:364-376 | the showdown payout keeps the chips on the table |
| BettingProperties.HandleActionRecords | poker-game/src/game/GameState.js:261-269 | every accepted action extends the move history by an entry for the seat that acted, whose move is that seat's last action; the round log grew by the action or was cleared by a new street |
| BettingProperties.LoggedMove | poker-game/src/game/GameState.js:261-273 | the recorded entry survives a turn pass that keeps the log |
| BettingProperties.FinishKeepsLog | poker-game/src/game/GameState.js:271-273 | finishing an action keeps the move history as a prefix and the last actions, and keeps or clears the round log |
| BettingProperties.NextPlayerKeepsLog | poker-game/src/game/GameState.js:278-285 | passing the turn keeps the move history as a prefix and the last actions |
| BettingProperties.ProgressKeepsLog | poker-game/src/game/GameState.js:300-315 | moving to the next phase keeps the move history as a prefix and the last actions |
| BettingProperties.NextPlayerConserves | poker-game/src/game/GameState.js:278-285 | passing the turn keeps the chips on the table and the invariant |
| BettingProperties.ProgressConserves | poker-game/src/game/GameState.js:300-315 | moving to the next phase keeps the chips on the table and the invariant |
| BettingProperties.FinishConserves | poker-game/src/game/GameState.js:271-273 | the end of handlePlayerAction keeps the chips on the table and the invariant |
| BettingProperties.DealFlopConserves | poker-game/src/game/GameState.js:129-143 | the flop keeps the chips and the invariant |
| BettingProperties.DealOneConserves | poker-game/src/game/GameState.js:145-177 | the turn and the river keep the chips and the invariant |
| BettingProperties.TurnPasses | poker-game/src/game/GameState.js:278-285 | while the round is open the turn passes to the other seat and nothing else of the betting changes |
| BettingProperties.StreetAdvances | poker-game/src/game/GameState.js:282-310 | a completed round before the river deals the next street (3 cards for the flop, 1 for the turn and the river) off the top of the deck, clears bets and round log, hands the turn to the seat after the dealer and logs the dealer's move |
| BettingProperties.FlopDealt | poker-game/src/game/GameState.js:129-143 | the PRE_FLOP step deals three cards and the flop move |
| BettingProperties.CardDealt | poker-game/src/game/GameState.js:145-177 | the FLOP and TURN steps deal one card each |
| BettingProperties.DealtAfterFlip | poker-game/src/game/GameState.js:279-280 | passing the turn first changes nothing the street deal is judged on |
| BettingProperties.RiverShowsDown | poker-game/src/game/GameState.js:311-313 | a completed river round goes to showdown, with seven cards a side |
| BettingProperties.ShowdownSettles | poker-game/src/game/GameState.js:341-377 | the whole pot goes to the comparePlayerHands winner; on a tie the player gets floor(pot/2) and the opponent the rest; the pot ends at 0, phase SHOWDOWN, no chip gained or lost |
| BettingProperties.ShowdownConserves | poker-game/src/game/GameState.js:341-377 | showdown keeps the chips and the invariant and ends in SHOWDOWN |
| BettingProperties.StartHandFacts | poker-game/src/game/GameState.js:55-87 | the button moves; the dealer seat posts min(10, chips) and the other min(20, chips); the table bet is 20; each seat gets two cards off the top; the dealer seat acts first; the old pot leaves the table |
| BettingProperties.ClearHandFacts | poker-game/src/game/GameState.js:59-80 | the resets of startNewHand: button moved, pot 0, PRE_FLOP, empty board and logs, stacks and names kept, nobody folded |
| BettingProperties.OpenHandFacts | poker-game/src/game/GameState.js:82-86 | blinds from the dealer seat (small) and the other (big), four cards off the top, the dealer seat to act, the chips on the table kept |
| BettingProperties.PostBlindsFacts | poker-game/src/game/GameState.js:89-120 | each seat pays its blind capped at its stack, the pot grows by both, the table bet is 20 and two entries are logged; nothing else moves |
| BettingProperties.DealHoleCardsFacts | poker-game/src/game/GameState.js:122-127 | the top two undealt cards go to the player and the next two to the opponent |
| BettingProperties.RoundCompleteCases | poker-game/src/game/GameState.js:287-298 | with nobody folded the round stays open below two actions; with two or more it closes on matched bets, and with unmatched bets exactly when every logged action was a check |
| BettingProperties.FoldedRoundComplete | poker-game/src/game/GameState.js:288-290 | a fold closes the round |
| BettingProperties.GameOverCases | poker-game/src/game/GameState.js:379-381 | the game is never over right after reset |
| Session.GameOverTakesAll | poker-game/src/game/GameState.js:379-381 | between hands of a session, the game is over exactly when one seat holds all 2 * INITIAL_CHIPS chips |
| AI.NewAIPlayer | poker-game/src/game/AIPlayer.js:5-9 | aggressiveness and bluff frequency are 0.2/0.05 for "easy", 0.6/0.2 for "hard" and 0.4/0.1 for anything else |
| AI.HarderIsBolder | poker-game/src/game/AIPlayer.js:117-132 | for every decision and roll: a fold by the hard opponent is a fold at medium and easy, and a raise by the easy opponent is a raise at medium and hard |
| AI.RankStrength | poker-game/src/game/AIPlayer.js:96-109 | the strength of a category lies in [0.2, 1], with 0.2 for a rank outside the table |
| AI.RankStrengthIncreasing | poker-game/src/game/AIPlayer.js:96-107 | a better category always scores strictly higher |
| AI.EvaluateHandStrength | poker-game/src/game/AIPlayer.js:79-110 | the estimate fails exactly for three or four cards, where evaluateHand throws; otherwise it lies in [0, 1] |
| AI.PocketStrengthBounds | poker-game/src/game/AIPlayer.js:82-92 | a pocket pair scores in [0.5, 0.8], reaching 0.8 only with aces; two unpaired cards score in (0, 0.4], reaching 0.4 only with an ace |
| AI.PocketStrengthMonotone | poker-game/src/game/AIPlayer.js:82-92 | among pairs, and among unpaired hands, a higher top card never scores less |
| AI.PostflopStrength | poker-game/src/game/AIPlayer.js:94-109 | from five cards on the strength is the table entry of the best hand's category |
| AI.CalculatePotOdds | poker-game/src/game/AIPlayer.js:112-115 | 1 when nothing is owed; for a positive call into a non-negative pot the odds lie in [0, 1) |
| AI.PotOddsAbove | poker-game/src/game/AIPlayer.js:37-55 | the odds beat a bound b exactly when pot·(1-b) > b·call |
| AI.PotOddsFall | poker-game/src/game/AIPlayer.js:112-115 | into the same pot, a larger call gives strictly worse odds |
| AI.MakeDecision | poker-game/src/game/AIPlayer.js:11-77 | it fails exactly when the opponent's cards plus the board number three or four |
| AI.DecideShape | poker-game/src/game/AIPlayer.js:20-76 | the decision is FOLD, CHECK, CALL or RAISE, never ALL_IN; CHECK only with a matched bet; CALL only for a positive amount within the stack, carrying it; RAISE exactly when strength ≥ 0.8 or the bluff roll fires and the stack exceeds twice the call, to the table bet plus the capped raise size |
| AI.RaiseSizeBounds | poker-game/src/game/AIPlayer.js:26-29 | the raise size never exceeds the stack, and is the stack or between half the pot and the pot |
| AI.WeakHandFoldsUnbet | poker-game/src/game/AIPlayer.js:61-76 | a hand below 0.3 that cannot raise folds even when checking is free |
| AI.StrongHandChecks | poker-game/src/game/AIPlayer.js:37-63 | a hand of 0.3 or more with a matched bet checks, unless it raises |
| AI.SnapshotOnly | poker-game/src/game/AIPlayer.js:12-13 | the decision depends only on the opponent's cards, stack and bet, the board, the table bet and the pot |
| AI.AdjustmentCases | poker-game/src/game/AIPlayer.js:117-132 | "easy" turns a non-FOLD into FOLD exactly when the roll is below 0.3; "hard" turns only a CALL into a RAISE of twice its amount when the roll is below the aggressiveness; anything else is returned unchanged |
| AI.GetDecision | poker-game/src/game/AIPlayer.js:134-142 | the rule chain then the adjustment; it fails exactly when the rule chain fails |
| AI.GetDecisionShape | poker-game/src/game/AIPlayer.js:117-142 | after the adjustment the opponent still never goes all in, checks only with a matched bet, and calls only what it can pay |
| AI.DecisionsAccepted | poker-game/src/game/AIPlayer.js:37-76 | on the opponent's turn handlePlayerAction accepts every FOLD, CHECK and CALL the rule chain returns |
| AI.OversizedRaiseRefused | poker-game/src/game/AIPlayer.js:24-33 | with 50 chips, a bet of 0 against 20 and a pot of 100, a strong hand asks to raise to 70, and handlePlayerAction refuses it |
| AI.WithinStackAccepted | poker-game/src/game/AIPlayer.js:24-76 | with the raise request capped at the stack (AI.DecideWithinStack) every raise request is within the stack and is accepted when it reaches the 20-chip minimum; the other decisions are unchanged and accepted |
| HandProperties.WheelOutranksStraights | poker-game/src/game/HandEvaluator.js:83-88 | as written, an off-suit wheel beats every other off-suit straight except the ace-high one, which it ties |
| HandProperties.EvaluateFiveCardsCorrected | poker-game/src/game/HandEvaluator.js:42-89 | the same category and name as evaluateFiveCards, and the same result outside the straights |
| HandProperties.WheelLowestStraight | poker-game/src/game/HandEvaluator.js:83-88 | with the corrected key the wheel has key [5] and loses to every other straight |
| Session.CheckForWinnerSettles | poker-game/src/game/GameState.js:317-338 | checkForWinner leaves the pot empty whenever it ends the hand, and ends it exactly in SHOWDOWN |
| Session.ProgressSettles | poker-game/src/game/GameState.js:300-315 | moving to the next phase never leaves chips in the pot outside a hand: only the river leaves the betting phases, and its showdown empties the pot |
| Session.NextPlayerSettles | poker-game/src/game/GameState.js:278-298 | passing the turn keeps the pot empty outside a hand |
| Session.FinishSettles | poker-game/src/game/GameState.js:271-275 | the end of handlePlayerAction keeps the pot empty outside a hand |
| Session.HandleActionSettles | poker-game/src/game/GameState.js:193-276 | an action taken during a hand, accepted or refused, leaves the pot empty if the hand is over afterwards |
| Session.ApplyBalanced | poker-game/src/components/Game.jsx:20-70 | each call the driver can make (reset, a new hand after the last one ended, an action during a hand) keeps the invariant, the 2000 chips on the table, and an empty pot outside a hand |
| Session.NewHandBalanced | poker-game/src/components/Game.jsx:20-70 | a new hand dealt after the last one ended keeps the invariant and the 2000 chips, because the pot was already paid out |
| Session.RunBalanced | poker-game/src/components/Game.jsx:20-70 | the same holds after any sequence of such calls |
| Session.SessionConserves | poker-game/src/game/GameState.js:18-52 | from reset on, whatever the driver sends, both stacks plus the pot are always 2 * INITIAL_CHIPS and the pot is empty whenever no hand is in play |
| Session.NewHandOverLivePot | poker-game/src/game/GameState.js:55-60 | startNewHand over a pot that was not paid out loses those chips, which is why the driver deals only after a hand has ended |

## Left out

- Card animation and drawing (`setPosition`, `setTargetPosition`, `updatePosition`, `draw`): floating-point screen positions and canvas calls, with no rules in them.
- The React components and the styling: they drive the engine and display it but make no rules. The component that calls the opponent ignores the answer of handlePlayerAction.
- `Math.random()`: every draw is a parameter.
  - The shuffle's swap index at step i is a number in 0..i.
  - The opponent's rolls are reals in [0, 1).
  - `getDecision`'s delay roll and its timer and Promise are not modelled.
- Wall-clock timestamps of the move history: the model keeps the player, the move and the phase. The move text is a datatype of moves, not a formatted string.
- `getState`: it is the projection `Game.GameState.View`, without the copied object spreads. `isPlayerTurn` and `isGameOver` are not fields of it. `isGameOver` is the predicate `Betting.GameOver`.
- IEEE-754 arithmetic in the opponent policy: strengths, odds and rolls are exact reals. `Math.floor` is `Floor`. The division by zero of `calculatePotOdds` is modelled with the infinities of `AI.Number`, but float rounding is not.
- `AI.Doubled`: an absent amount doubled gives NaN in the source. Here it stays absent, and handlePlayerAction then receives 0.
- The order of keys in a JavaScript object: `groupByRank`'s buckets come out in ascending value order. That order cannot change the result, because the getHighCards comparator is a strict total order on buckets.
- Deck arrays are `seq` fields reassigned by the methods, and cards are objects, so aliasing between the two piles is what `Decks.Deck.NoCardInBothPiles` rules out.
- `GameState` methods that are long in the source are split into helper methods, each proved against its part of the transition:
  - reset into ResetFields and its parts;
  - startNewHand into RebuildDeck, DealNewHand, ClearForNewHand and OpenHand;
  - the deal methods into FlopSteps, DealBoard, DealStreetCard and DealPlayerHand, with the field updates SetPhase and LogDeal;
  - handlePlayerAction into Respond, Act, Conclude, LogAction and Finish;
  - nextPlayer's turn change into PassTurn;
  - showdown into ShowHands, DecideShowdown and Award.
- The face-up flags are carried by the invariant `Game.GameState.Shown`, which is part of `Valid`. The lemmas DealKeepsShown, ShowKeepsShown and TableKeepsShown re-establish it after each step that moves cards or turns them over.
- Game.GameState.HandlePlayerAction and Betting.HandleAction require the hand invariant `Betting.Inv`: during a hand both seats hold two cards, the board matches the phase, and at least enough cards remain to complete the board. Every state the engine reaches from startNewHand with a full deck keeps it (see `BettingProperties.StartHandFacts` and `HandleActionConserves`). Outside it, the source would throw while dealing.
- Game.GameState.Showdown requires at least five cards a side, through `Betting.CanShowDown`. Below five cards the source throws in evaluateHand. `BettingProperties.RiverShowsDown` proves that the engine only reaches showdown with seven cards a side.
- HandRanking.EvaluateFiveCards requires exactly five cards, and HandRanking.CompareHands requires the first key to be no longer than the second when the categories agree. The source calls them only in that way (`HandProperties.SameRankSameLength`). Elsewhere it would read past the end of an array.
- Game.GameState.DealCards requires enough undealt cards. `Decks.Deck.DealCards` models the failure case itself.

## Findings

| source | as written | input that shows it | evidently intended | confidence | as-written member | corrected member |
|---|---|---|---|---|---|---|
| poker-game/src/game/AIPlayer.js:24-33 | the raise request is `currentBet + min(floor(pot·f), chips)`, so it can exceed the stack, and handlePlayerAction (GameState.js:228-230) refuses a raise above the stack | opponent with 50 chips and no bet, table bet 20, pot 100, hand strength 0.9, raise roll 0: the request is 70 | the whole raise request is capped at the stack | medium, not executed | AI.OversizedRaiseRefused | AI.WithinStackAccepted (over AI.DecideWithinStack) |
| poker-game/src/game/HandEvaluator.js:83-88 | a straight's key is the top sorted value, so A-5-4-3-2 gets the key 14 | off-suit A-5-4-3-2 against off-suit 6-5-4-3-2: the wheel wins | the ace plays low in the wheel, key 5, the lowest straight | high, not executed | HandProperties.WheelOutranksStraights | HandProperties.WheelLowestStraight (over HandProperties.EvaluateFiveCardsCorrected) |

The engine model keeps the code's behaviour in both cases, because that is what the program does:

- `AI.GetDecision` uses `AI.Decide`;
- the showdown uses `HandRanking.EvaluateFiveCards`.

The corrected members stand beside it.
