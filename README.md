# The Game: a verified model of the rules engine

This project models the rules engine of a solver for "The Game", the
cooperative card game. There are four piles: two ascending piles seeded with
1 and two descending piles seeded with 100. The player holds up to eight
cards from a deck of 2..99. A turn places at least two cards. Each card goes
on a pile in that pile's direction, or exactly ten back against it. After the
turn the hand is refilled from the deck.

The model follows `src/game_state.py` and covers:

- the placement rule and the action queries;
- the transitions: one placement, one draw, the refill, a whole turn;
- the game-over queries;
- the setup of a new game;
- both turn enumerators.

Game states are immutable values in the source, so they are datatypes here:

- `GameState(piles, hand, deck)`;
- a `Pile` is a non-empty `CardPile(cards, ascending)`;
- a `Card` is its integer value.

Operations that can raise in Python return a `Result`:

- `InvalidAction` is the source's "player cheated" exception;
- `IndexOutOfRange` is an `IndexError` from a bad pile index;
- `EmptyDeck` is `pop` on an empty deck.

Pile indices follow Python's list indexing: `-1` addresses the last pile.
Functions with loops in the source are methods with loops, each proved
against a specification function:

- `AllValidActions`, `ChangeIfPlaced`, `HasValidPlay` and `SearchValidTurn`;
- `DrawCards` and `TakeTurn`;
- `InitialPiles`;
- the recursive and the iterative enumerators.

`InitialState` has no loop of its own: it builds the seed piles and the deck
and calls `DrawCards`.

The files, one module each:

| file | module | contents |
|---|---|---|
| `sorting.dfy` | `Sorting` | insertion sort; a sorted permutation is unique, so any correct sort agrees with it |
| `cards.dfy` | `Cards` | cards, piles, the placement rule, `valid_cards`, `change_if_placed` |
| `game_state.dfy` | `GameStates` | actions, turns, states, the legal-action listing, queries, card counting |
| `transitions.dfy` | `Transitions` | `take_action`, `draw_card`, `draw_cards`, `take_turn`, `has_one_valid_turn` |
| `setup.dfy` | `Setup` | `initial_deck` with its random keys as a parameter, `initial_piles`, `initial_state` |
| `enumeration.dfy` | `Enumeration` | the recursive enumerator as the reference; the iterative one as written and corrected |
| `reordering.dfy` | `Reordering` | the iterative enumerator as written lists the same turns, in another order |
| `scenarios.dfy` | `Scenarios` | a whole concrete turn, and the input that exposes the enumerator's misread action |

## Model

| member | source | states |
|---|---|---|
| Cards.FaceCard | src/game_state.py:46-48 | the face card is one of the pile's cards; `TakeActionEffect` shows it is the card placed last |
| Cards.PlacementIsValid | src/game_state.py:71-79 | a card goes on a pile when it moves the face in the pile's direction or is exactly ten above or below it; never on a card of its own value |
| Cards.ValidCards | src/game_state.py:66-69 | the result holds exactly the hand's cards that the pile accepts, and no more cards than the hand |
| Cards.ChangeIfPlaced | src/game_state.py:60-64 | the map's keys are exactly the hand's cards the pile accepts; each maps to its value minus the face card's |
| GameStates.ResolveIndex | src/game_state.py:176 | Python indexing: an index addresses an element exactly when `-n <= i < n`, element `i` or `n + i` |
| GameStates.IsValidAction | src/game_state.py:175-176 | true exactly when the card is in the hand, the index addresses a pile (negative ones Python style) and that pile accepts the card. An index error happens exactly for a card in hand with an index out of range; a card not in hand gives false |
| GameStates.Change | src/game_state.py:88-89 | defined exactly for an index in range, `IndexOutOfRange` otherwise; the face plus the change is the card played |
| GameStates.ChangeNormalized | src/game_state.py:91-95 | defined exactly when the change is; it is the change or its negation, and positive exactly when the card moves the face in the pile's direction |
| GameStates.PlacementValidIffChange | src/game_state.py:71-95 | a placement is legal exactly when the normalised change is positive (in the pile's direction) or exactly -10 (the ten-back jump) |
| GameStates.PileActionsMembers | src/game_state.py:113-115 | the inner loop lists exactly the piles, by index, that accept the card |
| GameStates.PileActionsSorted | src/game_state.py:113-115 | the inner loop lists those piles in increasing index order |
| GameStates.HandActionsMembers | src/game_state.py:112-115 | the outer loop over a hand prefix lists exactly the (card, pile) pairs with the card in that prefix and the pile accepting it |
| GameStates.HandActionsOrdered | src/game_state.py:112-115 | for a hand without repeats, the pairs are ordered by hand position first, pile index second |
| GameStates.AllValidActions | src/game_state.py:110-118 | the nested loops build the listing `ValidActions`, characterised by `ValidActionsExactly` and `ValidActionsOrdered` |
| GameStates.ValidActionsExactly | src/game_state.py:175-176 | an action is listed exactly when its pile index is in 0..3 and `is_valid_action` holds for it |
| GameStates.ValidActionsOrdered | src/game_state.py:110-118 | the listing is ordered by hand position, then by pile index |
| GameStates.HasOneValidAction | src/game_state.py:124-126 | true exactly when some pile accepts some card of the hand |
| GameStates.SomeValidAction | src/game_state.py:124-126 | the listing of legal actions is non-empty exactly when some pile accepts some card of the hand |
| GameStates.HasWon | src/game_state.py:142-147 | in a won state every card of the game lies on the piles |
| GameStates.WonStateHasNoAction | src/game_state.py:142-147 | a won state (empty hand and deck) offers no action |
| GameStates.HasValidPlay | src/game_state.py:33-38 | true exactly when the card is in the hand and some pile accepts it, i.e. when some listed action plays it |
| GameStates.PileAppend | src/game_state.py:293-297 | appending a card to one pile adds exactly that card to the piles' count and contents |
| Sorting.SortSorted | src/game_state.py:263 | the sorted hand is ordered by the comparison |
| Sorting.SortedUnique | src/game_state.py:263 | two sorted permutations of the same cards are equal, so any correct sort gives the same hand |
| Sorting.SortIsTheSortedPermutation | src/game_state.py:215 | any ordered permutation of the input is the result of `Sort` |
| Transitions.RemoveFirstSplit | src/game_state.py:290-291 | `list.remove` cuts out the first copy of the card and keeps the other cards in order |
| Transitions.RemoveFirstAt | src/game_state.py:290-291 | the same, at the card's first position in the hand |
| Transitions.RemoveFirstCount | src/game_state.py:290-291 | `list.remove` takes exactly one copy of the card out of the hand |
| Transitions.TakeActionFails | src/game_state.py:284-287 | the action fails exactly when `is_valid_action` does not hold. A missing card gives `InvalidAction`; a card in hand with a bad pile index gives `IndexOutOfRange`; a rejecting pile gives `InvalidAction` |
| Transitions.TakeAction | src/game_state.py:284-303 | a successful placement keeps the deck and the number of piles and uses one card of the hand (`TakeActionFails` gives the failures) |
| Transitions.TakeActionEffect | src/game_state.py:284-303 | on success the first copy of the card is cut out of the hand, which keeps its order, and the card is appended to the addressed pile, becoming its face; the pile keeps its direction. The other piles and the deck are unchanged, and the cards and their count are conserved |
| Transitions.TakeActionHand | src/game_state.py:289-291 | on success the hand loses the card's first copy and keeps its order |
| Transitions.TakeActionCards | src/game_state.py:284-303 | on success the game's cards, and their number, are unchanged |
| Transitions.ValidActionSucceeds | src/game_state.py:284-303 | every listed action succeeds and uses one card of the hand |
| Transitions.CardLeIsTotalOrder | src/game_state.py:30-31 | cards compare by value, a total order |
| Transitions.DrawCard | src/game_state.py:255-270 | a draw fails exactly on an empty deck, with `EmptyDeck` |
| Transitions.DrawCardEffect | src/game_state.py:255-270 | a draw fails exactly on an empty deck. Otherwise it moves the deck's last card into the hand, leaves the piles alone and conserves the cards |
| Transitions.DrawCardSortsHand | src/game_state.py:262-264 | after a draw the hand is sorted by value and is the only sorted arrangement of its cards |
| Transitions.DrawCardsSpecShape | src/game_state.py:248-252 | the refill stops with 8 cards or an empty deck. From at most 8 it ends at min(8, hand + deck) and takes the deck's top cards; the piles are untouched and a hand that drew is sorted |
| Transitions.DrawCardsSpecConserves | src/game_state.py:248-252 | the refill keeps the multiset of hand and deck together, and all cards of the game |
| Transitions.DrawCards | src/game_state.py:248-252 | the loop computes the refill and stops with 8 cards or an empty deck |
| Transitions.TakeTurn | src/game_state.py:273-281 | the loop applies the actions in order, stops at the first failure with its error, then refills |
| Transitions.ApplyActionsEffect | src/game_state.py:275-276 | successful placements keep the deck, the number of piles and every card, and shrink the hand by one card per action |
| Transitions.ApplyActionsFailsAt | src/game_state.py:275-276 | a failed turn failed at an action that the state reached by the earlier actions rejects, with that action's error |
| Transitions.TakeTurnConserves | src/game_state.py:273-281 | a whole turn keeps the number of piles, the card count and every card |
| Transitions.HasOneValidTurn | src/game_state.py:128-140 | a turn is possible only when some action is |
| Transitions.SearchValidTurn | src/game_state.py:128-140 | true exactly when some legal action leaves a state with a legal action; false when there is no legal action |
| Transitions.NoneContinues | src/game_state.py:134-140 | when no listed action leads to a state with a legal action, there is no valid turn |
| Transitions.WonStateIsFinal | src/game_state.py:142-147 | a won state has no legal action and no valid turn, and the refill leaves it unchanged |
| Setup.KeyLeIsTotalOrder | src/game_state.py:215 | Python's tuple order on (key, card) pairs is a total order |
| Setup.InitialDeck | src/game_state.py:209-218 | the deck has 98 cards; `InitialDeckIsPermutation` and `InitialDeckFollowsKeys` give its contents and order |
| Setup.InitialDeckIsPermutation | src/game_state.py:209-218 | for any keys the deck holds each card 2..99 exactly once: 98 cards |
| Setup.InitialDeckFollowsKeys | src/game_state.py:214-216 | a card nearer the bottom of the deck never has a larger key than a card above it |
| Setup.InitialPiles | src/game_state.py:221-235 | the appends build two ascending piles holding 1, then two descending piles holding 100 |
| Setup.DefaultPilesContents | src/game_state.py:221-235 | the four seed piles hold 4 cards: 1, 1, 100, 100 |
| Setup.InitialState | src/game_state.py:238-245 | a new game is the seed piles with an empty hand and the shuffled deck, then refilled (see `InitialStateFacts`) |
| Setup.InitialStateFacts | src/game_state.py:238-245 | a new game has a sorted hand of 8, the bottom 90 deck cards left, each card 2..99 exactly once among hand and deck, and 102 cards in all |
| Enumeration.LegalExactly | src/game_state.py:373-376 | a sequence of listed actions, each legal in turn, is exactly one that applies without error and uses no negative pile index |
| Enumeration.ReadBack | src/game_state.py:330 | reading at `index - 1`: index 0 reads the last element |
| Enumeration.Closing | src/game_state.py:330 | the closing action is one of the frame's legal actions, under either reading |
| Enumeration.TurnsFromIndexStep | src/game_state.py:373-386 | one loop iteration: the turn emitted now, then the turns below the new action, then the remaining actions |
| Enumeration.TurnsFromSound | src/game_state.py:373-386 | every turn listed from a path extends it by a legal sequence, to at least two actions, under either reading |
| Enumeration.TurnsFromComplete | src/game_state.py:366-389 | every legal extension of a path reaching two actions is listed |
| Enumeration.ValidTurnsExactly | src/game_state.py:366-389 | a turn is listed exactly when it has at least two actions and they are legal in sequence from the state |
| Enumeration.EnumerateValidTurnsRecursive | src/game_state.py:366-389 | the loop with its recursive call computes the reference listing `TurnsFrom` for the path and the top state |
| Enumeration.EnumeratedTurnsSucceed | src/game_state.py:273-281 | `take_turn` succeeds on every enumerated turn, which has at least two actions, under either reading |
| Enumeration.HasOneValidTurnIffTurns | src/game_state.py:128-140 | the two-step lookahead is true exactly when the enumeration is not empty |
| Enumeration.CurrentTurn | src/game_state.py:328-331 | the inner loop reads one action per frame (as many as the stack is deep), each at its index minus one, Python style |
| Enumeration.CurrentTurnIsPath | src/game_state.py:328-331 | that read is the path chosen by the lower frames, closed by the top frame's read |
| Enumeration.ClosingTurn | src/game_state.py:326-332 | the turn built there is the one the recursive enumerator emits at that point, under the chosen reading |
| Enumeration.EnumerateValidTurnsAsWritten | src/game_state.py:309-348 | the loop terminates and lists the lagged listing; every listed turn has at least two actions and `take_turn` succeeds on it |
| Enumeration.EnumerateValidTurns | src/game_state.py:309-348 | with the index advanced first, the loop lists exactly the recursive enumerator's turns, in the same order |
| Reordering.LaggedIsRotation | src/game_state.py:329-330 | within a frame the lagged closings are the true ones with the last moved to the front |
| Reordering.ClosingsRotate | src/game_state.py:329-330 | so over a frame both readings emit the same turns |
| Reordering.SplitTurns | src/game_state.py:373-386 | a frame's turns are its own closings plus its subtrees' turns |
| Reordering.TurnsAgree | src/game_state.py:309-348 | from any frame both readings list the same turns, each as often |
| Reordering.AllValidTurns | src/game_state.py:120-122 | the turns listed by the enumerator as written, in its lagged order: a permutation of the valid turns, each with two or more actions and accepted by `take_turn` |
| Reordering.AsWrittenIsPermutation | src/game_state.py:309-348 | the enumerator as written lists a permutation of the valid turns: exactly the legal sequences of two or more actions |
| Scenarios.TwoCardActions | src/game_state.py:110-118 | with hand [2, 3] on fresh piles every card can go on every pile, listed card by card |
| Scenarios.AfterTwoActions | src/game_state.py:284-303 | placing the 2 on pile 0 gives piles [1, 2], [1], [100], [100] and hand [3] |
| Scenarios.FirstListedTurn | src/game_state.py:319-335 | the first listed turn is the first action closed by the first action after it, or under the lag by the last one |
| Scenarios.LagClosesWithWrongAction | src/game_state.py:319-335 | for hand [2, 3] the intended first turn is (2 on 0, 3 on 0); the code as written lists (2 on 0, 3 on 3) first |
| Scenarios.PlaceStep | src/game_state.py:284-303 | a placement the pile accepts gives the state with the card moved from hand to pile |
| Scenarios.DrawStep | src/game_state.py:255-270 | a draw gives the deck minus its last card and the sorted hand with that card added |
| Scenarios.ExamplePlacements | src/game_state.py:275-276 | from hand [2, 3, 4, 5, 6, 7, 89, 99], playing 2 on 0, 3 on 1, 6 on 1, 99 on 2 and 89 on 2 gives piles [1, 2], [1, 3, 6], [100, 99, 89], [100] and hand [4, 5, 7] |
| Scenarios.ExampleRefill | src/game_state.py:248-252 | the refill then draws 18, 17, 16, 15, 14 off the top of the deck into the sorted hand |
| Scenarios.TakeTurnExample | src/game_state.py:273-281 | that whole turn from deck [10..18] ends with piles [1, 2], [1, 3, 6], [100, 99, 89], [100], hand [4, 5, 7, 14, 15, 16, 17, 18] and deck [10, 11, 12, 13] |

## Left out

- The random keys of `initial_deck`: Python's seeded generator (`random.seed`, `random.randint`) is a foreign call. The 98 keys are a parameter, so the seed-determinism and different-seed behaviour is not modelled.
- `Setup.InitialDeck` accepts any integer keys, not only those in 0..`sys.maxsize`; every proved property holds for all keys.
- `simulate`: a driver loop around an arbitrary strategy callable, with printing.
- Rendering and debugging: `PrintLevel`, every `visual` property, `Card.__repr__`/`__str__`, the debug prints and the global counters `action_counter` and `counter`.
- `AggregateStats`: its win ratio is a float division, and its counts only feed the printed report.
- `change_if_placed_on_pile` and `change_if_placed_from_hand`: dictionaries assembled from `ChangeIfPlaced` for the strategies, which are not part of this model.
- `cached_property`, `FrozenList.freeze()` and `tqdm`: memoisation, immutability and progress-bar plumbing. Properties are plain functions and lists are sequences.
- The root-level `game_state.py` draft, `setup.py`, `src/main.py`, `src/strategies.py` and `src/strategy_info.py` are not part of this model. `backtrack_solver` is not part of this model.
- The `ValueError` of `list.remove` in `take_action` cannot occur: the validity check runs first and requires the card to be in the hand.
- Enumeration.EnumerateValidTurnsRecursive: requires a non-empty state stack. The source reads `state_stack[-1]` and would raise `IndexError` on an empty one; no live code calls it: its callers are itself, always with a longer stack, and a wrapper that is commented out (`src/game_state.py:351-360`), which would pass one state.
- Sorting.Sort: Python sorts with Timsort, the model with insertion sort. `Sorting.SortedUnique` shows that both give the same sequence for a total order, so only the running time differs.

## Findings

| source | as written | input that shows it | evidently intended | confidence | as-written member | corrected member |
|---|---|---|---|---|---|---|
| src/game_state.py:330 | The turn is built from `valid_actions[action_index_stack[index] - 1]` before line 335 advances the top frame's index. The turn's last action is the top frame's previously tried action; for the frame's first action, index -1 wraps to its last action. | A hand of [2, 3] on fresh piles with an empty deck. The first turn listed is (2 on pile 0, 3 on pile 3), while the action just applied at line 323 is 3 on pile 0. | The closing action is the one just taken at lines 321-323, as the comment at line 325 says: each turn is the path the search has walked, in the recursive enumerator's order. | not executed | Enumeration.EnumerateValidTurnsAsWritten, Scenarios.LagClosesWithWrongAction | Enumeration.EnumerateValidTurns |

`Reordering.AsWrittenIsPermutation` shows the practical effect. Within a
frame the misread closing actions are a rotation of the true ones. So the
code as written still lists every valid turn, each as often as
the recursive enumerator does, and every listed turn is legal; only the
order differs. A caller that takes the first listed turn gets a different
turn than intended. The source's `all_valid_turns` calls the code as
written, and so does the model's `Reordering.AllValidTurns`: it lists the
turns in the lagged order. The corrected enumerator is
`Enumeration.EnumerateValidTurns`.
