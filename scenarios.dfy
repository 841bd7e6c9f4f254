/**
 * Concrete games: a whole turn from a known position, and the first turn the
 * two enumerators list for a two-card hand.
 */
module Scenarios {
  import opened Cards
  import opened GameStates
  import opened Transitions
  import opened Setup
  import opened Enumeration

  /** Two cards in hand, nothing left to draw. */
  function TwoCardState(): GameState {
    GameState(DefaultPiles(), [2, 3], [])
  }

  lemma {:induction false} TwoCardActions()
    ensures ValidActions(TwoCardState()) ==
      [PlayerAction(2, 0), PlayerAction(2, 1), PlayerAction(2, 2), PlayerAction(2, 3),
       PlayerAction(3, 0), PlayerAction(3, 1), PlayerAction(3, 2), PlayerAction(3, 3)]
  {
    var s := TwoCardState();
    assert PileActions(s.piles, 2, 4) == [PlayerAction(2, 0), PlayerAction(2, 1), PlayerAction(2, 2), PlayerAction(2, 3)];
    assert PileActions(s.piles, 3, 4) == [PlayerAction(3, 0), PlayerAction(3, 1), PlayerAction(3, 2), PlayerAction(3, 3)];
  }

  /** The state after placing the 2 on the first ascending pile. */
  function AfterTwo(): GameState {
    GameState([CardPile([1, 2], true), CardPile([1], true), CardPile([100], false), CardPile([100], false)], [3], [])
  }

  lemma {:induction false} AfterTwoActions()
    ensures TakeAction(TwoCardState(), PlayerAction(2, 0)) == Ok(AfterTwo())
    ensures ValidActions(AfterTwo()) ==
      [PlayerAction(3, 0), PlayerAction(3, 1), PlayerAction(3, 2), PlayerAction(3, 3)]
  {
    var s := AfterTwo();
    assert PileActions(s.piles, 3, 4) == [PlayerAction(3, 0), PlayerAction(3, 1), PlayerAction(3, 2), PlayerAction(3, 3)];
    var t := TwoCardState();
    assert IsValidAction(t, PlayerAction(2, 0)) == Ok(true);
    assert t.hand[1..] == [3];
    assert t.piles[0].cards + [2] == [1, 2];
    assert t.piles[0 := CardPile([1, 2], true)] == s.piles;
  }

  /**
   * The first turn listed from a state: its first legal action, closed by
   * the first legal action after it (or, read with the lag, the last one).
   */
  lemma {:induction false} FirstListedTurn(s: GameState, lag: bool)
    requires |ValidActions(s)| > 0
    requires TakeAction(s, ValidActions(s)[0]).Ok?
    requires |ValidActions(TakeAction(s, ValidActions(s)[0]).value)| > 0
    ensures var a := ValidActions(s)[0];
      var later := ValidActions(TakeAction(s, a).value);
      && |TurnsFrom([], s, lag)| > 0
      && TurnsFrom([], s, lag)[0] == PlayerTurn([a, Closing(later, 0, lag)])
  {
    var a := ValidActions(s)[0];
    var next := TakeAction(s, a).value;
    var later := ValidActions(next);
    TurnsFromIndexStep([], s, 0, lag);
    TurnsFromIndexStep([a], next, 0, lag);
    var head := Emitted([a], later, 0, lag);
    assert [a] + [Closing(later, 0, lag)] == [a, Closing(later, 0, lag)];
    assert head == [PlayerTurn([a, Closing(later, 0, lag)])];
    var first := TurnsFrom([a], next, lag);
    assert first == head + TurnsFrom([a] + [later[0]], TakeAction(next, later[0]).value, lag)
      + TurnsFromIndex([a], next, 1, lag);
    assert [] + [a] == [a];
    assert TurnsFrom([], s, lag) == Emitted([], ValidActions(s), 0, lag) + first + TurnsFromIndex([], s, 1, lag);
    assert Emitted([], ValidActions(s), 0, lag) == [];
  }

  /**
   * The live enumerator closes its first turn with the 3 on the last pile,
   * where the turn actually taken plays the 3 on the first pile.
   */
  lemma {:induction false} LagClosesWithWrongAction()
    ensures var intended := TurnsFrom([], TwoCardState(), false);
      |intended| > 0 && intended[0] == PlayerTurn([PlayerAction(2, 0), PlayerAction(3, 0)])
    ensures var written := TurnsFrom([], TwoCardState(), true);
      |written| > 0 && written[0] == PlayerTurn([PlayerAction(2, 0), PlayerAction(3, 3)])
  {
    TwoCardActions();
    AfterTwoActions();
    FirstListedTurn(TwoCardState(), false);
    FirstListedTurn(TwoCardState(), true);
  }

  /** Placing a card the addressed pile accepts: the card leaves the hand and tops that pile. */
  lemma {:induction false} PlaceStep(s: GameState, a: PlayerAction, t: GameState)
    requires a.card in s.hand && 0 <= a.pile < |s.piles| && PlacementIsValid(s.piles[a.pile], a.card)
    requires t.piles == s.piles[a.pile := CardPile(s.piles[a.pile].cards + [a.card], s.piles[a.pile].ascending)]
    requires t.hand == RemoveFirst(s.hand, a.card) && t.deck == s.deck
    ensures TakeAction(s, a) == Ok(t)
  {
  }

  /** Drawing into a hand whose sorted result is known. */
  lemma {:induction false} DrawStep(s: GameState, hand: seq<Card>)
    requires s.deck != []
    requires Sorting.SortedBy(hand, CardLe)
    requires multiset(hand) == multiset(s.hand) + multiset{s.deck[|s.deck| - 1]}
    ensures DrawCard(s) == Ok(GameState(s.piles, hand, s.deck[..|s.deck| - 1]))
  {
    DrawCardEffect(s);
    DrawCardSortsHand(s);
  }

  /** The deck of the example game: any cards `rest`, under 14 up to 18 (the top card, drawn first, is 18). */
  function ExampleDeck(rest: seq<Card>): seq<Card> {
    rest + CardRange(14, 19)
  }

  /** The example turn: 2 and 3 start the ascending piles, 6 follows the 3, 99 and 89 go on a descending pile. */
  function ExampleTurn(): seq<PlayerAction> {
    [PlayerAction(2, 0), PlayerAction(3, 1), PlayerAction(6, 1), PlayerAction(99, 2), PlayerAction(89, 2)]
  }

  /** The example game before the turn (k = 0) and after each of its five placements. */
  function ExampleState(k: nat, rest: seq<Card>): GameState
    requires k <= 5
  {
    var desc := CardPile([100], false);
    if k == 0 then GameState(DefaultPiles(), [2, 3, 4, 5, 6, 7, 89, 99], ExampleDeck(rest))
    else if k == 1 then
      GameState([CardPile([1, 2], true), CardPile([1], true), desc, desc], [3, 4, 5, 6, 7, 89, 99], ExampleDeck(rest))
    else if k == 2 then
      GameState([CardPile([1, 2], true), CardPile([1, 3], true), desc, desc], [4, 5, 6, 7, 89, 99], ExampleDeck(rest))
    else if k == 3 then
      GameState([CardPile([1, 2], true), CardPile([1, 3, 6], true), desc, desc], [4, 5, 7, 89, 99], ExampleDeck(rest))
    else if k == 4 then
      GameState([CardPile([1, 2], true), CardPile([1, 3, 6], true), CardPile([100, 99], false), desc],
                [4, 5, 7, 89], ExampleDeck(rest))
    else
      GameState([CardPile([1, 2], true), CardPile([1, 3, 6], true), CardPile([100, 99, 89], false), desc],
                [4, 5, 7], ExampleDeck(rest))
  }

  lemma {:induction false} PlaceTwo(rest: seq<Card>)
    ensures TakeAction(ExampleState(0, rest), ExampleTurn()[0]) == Ok(ExampleState(1, rest))
  {
    var s, t := ExampleState(0, rest), ExampleState(1, rest);
    RemoveFirstSplit(s.hand, 0);
    assert [1] + [2] == [1, 2];
    assert s.piles[0 := CardPile([1, 2], true)] == t.piles;
    PlaceStep(s, ExampleTurn()[0], t);
  }

  lemma {:induction false} PlaceThree(rest: seq<Card>)
    ensures TakeAction(ExampleState(1, rest), ExampleTurn()[1]) == Ok(ExampleState(2, rest))
  {
    var s, t := ExampleState(1, rest), ExampleState(2, rest);
    RemoveFirstSplit(s.hand, 0);
    assert [1] + [3] == [1, 3];
    assert s.piles[1 := CardPile([1, 3], true)] == t.piles;
    PlaceStep(s, ExampleTurn()[1], t);
  }

  lemma {:induction false} PlaceSix(rest: seq<Card>)
    ensures TakeAction(ExampleState(2, rest), ExampleTurn()[2]) == Ok(ExampleState(3, rest))
  {
    var s, t := ExampleState(2, rest), ExampleState(3, rest);
    RemoveFirstSplit(s.hand, 2);
    assert s.hand[..2] == [4, 5] && s.hand[3..] == [7, 89, 99];
    assert s.hand[..2] + s.hand[3..] == t.hand;
    assert [1, 3] + [6] == [1, 3, 6];
    assert s.piles[1 := CardPile([1, 3, 6], true)] == t.piles;
    PlaceStep(s, ExampleTurn()[2], t);
  }

  lemma {:induction false} PlaceNinetyNine(rest: seq<Card>)
    ensures TakeAction(ExampleState(3, rest), ExampleTurn()[3]) == Ok(ExampleState(4, rest))
  {
    var s, t := ExampleState(3, rest), ExampleState(4, rest);
    RemoveFirstSplit(s.hand, 4);
    assert s.hand[..4] == [4, 5, 7, 89] && s.hand[5..] == [];
    assert s.hand[..4] + s.hand[5..] == t.hand;
    assert [100] + [99] == [100, 99];
    assert s.piles[2 := CardPile([100, 99], false)] == t.piles;
    PlaceStep(s, ExampleTurn()[3], t);
  }

  lemma {:induction false} PlaceEightyNine(rest: seq<Card>)
    ensures TakeAction(ExampleState(4, rest), ExampleTurn()[4]) == Ok(ExampleState(5, rest))
  {
    var s, t := ExampleState(4, rest), ExampleState(5, rest);
    RemoveFirstSplit(s.hand, 3);
    assert s.hand[..3] == [4, 5, 7] && s.hand[4..] == [];
    assert s.hand[..3] + s.hand[4..] == t.hand;
    assert [100, 99] + [89] == [100, 99, 89];
    assert s.piles[2 := CardPile([100, 99, 89], false)] == t.piles;
    PlaceStep(s, ExampleTurn()[4], t);
  }

  /** The placement at step `k` of the example turn. */
  lemma {:induction false} ExamplePlacement(k: nat, rest: seq<Card>)
    requires k < 5
    ensures TakeAction(ExampleState(k, rest), ExampleTurn()[k]) == Ok(ExampleState(k + 1, rest))
  {
    if k == 0 {
      PlaceTwo(rest);
    } else if k == 1 {
      PlaceThree(rest);
    } else if k == 2 {
      PlaceSix(rest);
    } else if k == 3 {
      PlaceNinetyNine(rest);
    } else {
      PlaceEightyNine(rest);
    }
  }

  /** The placements of the example turn from step `k` on, one after another. */
  lemma {:induction false} ExamplePlacementsFrom(k: nat, rest: seq<Card>)
    requires k <= 5
    ensures ApplyActions(ExampleState(k, rest), ExampleTurn()[k..]) == Ok(ExampleState(5, rest))
    decreases 5 - k
  {
    var turn := ExampleTurn();
    if k == 5 {
      assert turn[k..] == [];
    } else {
      ExamplePlacementsFrom(k + 1, rest);
      ExamplePlacement(k, rest);
      ApplyFrom(ExampleState(k, rest), turn, k, ExampleState(k + 1, rest), ExampleState(5, rest));
    }
  }

  /** The five placements of the example turn, one after another. */
  lemma {:induction false} ExamplePlacements(rest: seq<Card>)
    ensures ApplyActions(ExampleState(0, rest), ExampleTurn()) == Ok(ExampleState(5, rest))
  {
    ExamplePlacementsFrom(0, rest);
    assert ExampleTurn()[0..] == ExampleTurn();
  }

  /** Applying the actions from `k` on: the action at `k`, then the ones after it. */
  lemma {:induction false} ApplyFrom(s: GameState, actions: seq<PlayerAction>, k: nat, next: GameState, final: GameState)
    requires k < |actions|
    requires TakeAction(s, actions[k]) == Ok(next)
    requires ApplyActions(next, actions[k + 1..]) == Ok(final)
    ensures ApplyActions(s, actions[k..]) == Ok(final)
  {
    assert actions[k..][0] == actions[k];
    assert actions[k..][1..] == actions[k + 1..];
  }

  /** The example game after `k` draws of the refill: 18 down to 19 - k have joined the hand. */
  function RefillState(k: nat, rest: seq<Card>): GameState
    requires k <= 5
  {
    GameState(ExampleState(5, rest).piles, [4, 5, 7] + CardRange(19 - k, 19), rest + CardRange(14, 19 - k))
  }

  /** Each draw takes the top card, 18 - k, and sorts it in front of the larger cards drawn before. */
  lemma {:induction false} RefillStep(k: nat, rest: seq<Card>)
    requires k < 5
    ensures DrawCard(RefillState(k, rest)) == Ok(RefillState(k + 1, rest))
  {
    var s, t := RefillState(k, rest), RefillState(k + 1, rest);
    RefillDeck(k, rest);
    RefillHand(k, rest);
    DrawStep(s, t.hand);
  }

  lemma {:induction false} RefillDeck(k: nat, rest: seq<Card>)
    requires k < 5
    ensures RefillState(k, rest).deck == RefillState(k + 1, rest).deck + [18 - k]
  {
    assert CardRange(14, 19 - k) == CardRange(14, 18 - k) + [18 - k];
  }

  lemma {:induction false} RefillHand(k: nat, rest: seq<Card>)
    requires k < 5
    ensures var s, t := RefillState(k, rest), RefillState(k + 1, rest);
      && Sorting.SortedBy(t.hand, CardLe)
      && multiset(t.hand) == multiset(s.hand) + multiset{18 - k}
  {
    var s, t := RefillState(k, rest), RefillState(k + 1, rest);
    assert CardRange(18 - k, 19) == [18 - k] + CardRange(19 - k, 19);
    assert t.hand == [4, 5, 7] + [18 - k] + CardRange(19 - k, 19);
  }

  /** From any point of the refill on, drawing stops with eight cards in hand. */
  lemma {:induction false} RefillFrom(k: nat, rest: seq<Card>)
    requires k <= 5
    ensures DrawCardsSpec(RefillState(k, rest)) == RefillState(5, rest)
    decreases 5 - k
  {
    if k < 5 {
      RefillStep(k, rest);
      RefillFrom(k + 1, rest);
    }
  }

  /** The refill after the example turn: 18, 17, 16, 15 and 14 come off the deck into a sorted hand. */
  lemma {:induction false} ExampleRefill(rest: seq<Card>)
    ensures DrawCardsSpec(ExampleState(5, rest)) == RefillState(5, rest)
  {
    assert RefillState(0, rest) == ExampleState(5, rest) by {
      assert [4, 5, 7] + CardRange(19, 19) == [4, 5, 7];
    }
    RefillFrom(0, rest);
  }

  /** After the refill: the hand holds 4, 5, 7 and 14 to 18; 10 to 13 are left in the deck. */
  lemma {:induction false} RefilledState(rest: seq<Card>)
    ensures RefillState(5, rest) ==
      GameState(ExampleState(5, rest).piles, [4, 5, 7, 14, 15, 16, 17, 18], rest)
  {
    assert CardRange(14, 19) == [14, 15, 16, 17, 18];
    assert rest + CardRange(14, 14) == rest;
    assert [4, 5, 7] + [14, 15, 16, 17, 18] == [4, 5, 7, 14, 15, 16, 17, 18];
  }

  /**
   * A whole turn from a known position: the placements, then the hand is
   * refilled to eight cards from the top of the deck.
   */
  lemma {:induction false} TakeTurnExample(rest: seq<Card>)
    ensures TakeTurnSpec(ExampleState(0, rest), PlayerTurn(ExampleTurn()))
      == Ok(GameState([CardPile([1, 2], true), CardPile([1, 3, 6], true), CardPile([100, 99, 89], false), CardPile([100], false)],
                      [4, 5, 7, 14, 15, 16, 17, 18], rest))
  {
    PlaceThenRefill(rest);
    RefilledState(rest);
    FinalPiles(rest);
  }

  lemma {:induction false} PlaceThenRefill(rest: seq<Card>)
    ensures TakeTurnSpec(ExampleState(0, rest), PlayerTurn(ExampleTurn())) == Ok(RefillState(5, rest))
  {
    ExamplePlacements(rest);
    ExampleRefill(rest);
    TurnThenRefill(ExampleState(0, rest), PlayerTurn(ExampleTurn()), ExampleState(5, rest));
  }

  lemma {:induction false} FinalPiles(rest: seq<Card>)
    ensures ExampleState(5, rest).piles ==
      [CardPile([1, 2], true), CardPile([1, 3, 6], true), CardPile([100, 99, 89], false), CardPile([100], false)]
  {
  }

  /** A turn whose placements all succeed ends with the refill of the state they lead to. */
  lemma {:induction false} TurnThenRefill(s: GameState, turn: PlayerTurn, placed: GameState)
    requires ApplyActions(s, turn.actions) == Ok(placed)
    ensures TakeTurnSpec(s, turn) == Ok(DrawCardsSpec(placed))
  {
  }
}
