/**
 * The transition engine: placing one card, drawing, refilling the hand,
 * taking a whole turn, and the two-step lookahead that decides whether a
 * turn is possible at all. Every transition returns a new state.
 */
module Transitions {
  import opened Cards
  import opened GameStates
  import Sorting

  /** Python's `list.remove`: drops the first occurrence of `c`. */
  function RemoveFirst(s: seq<Card>, c: Card): (r: seq<Card>)
    requires c in s
    ensures |r| == |s| - 1
  {
    if s[0] == c then s[1..]
    else
      assert s == [s[0]] + s[1..];
      [s[0]] + RemoveFirst(s[1..], c)
  }

  /** `RemoveFirst` cuts out the first occurrence and keeps the rest in order. */
  lemma {:induction false} RemoveFirstSplit(s: seq<Card>, k: nat)
    requires k < |s| && s[k] !in s[..k]
    ensures RemoveFirst(s, s[k]) == s[..k] + s[k + 1..]
  {
    if k > 0 {
      assert s[1..][..k - 1] == s[1..k];
      assert s[1..][k - 1] == s[k];
      RemoveFirstSplit(s[1..], k - 1);
      assert s[..k] == [s[0]] + s[1..k];
      assert s[1..][k..] == s[k + 1..];
    }
  }

  /** `RemoveFirst` cuts the card out at its first position. */
  lemma {:induction false} RemoveFirstAt(s: seq<Card>, c: Card)
    requires c in s
    ensures RemoveFirst(s, c) == s[..IndexOf(s, c)] + s[IndexOf(s, c) + 1..]
  {
    RemoveFirstSplit(s, IndexOf(s, c));
  }

  /** Removing one occurrence takes exactly one copy of `c` out of the hand. */
  lemma {:induction false} RemoveFirstCount(s: seq<Card>, c: Card)
    requires c in s
    ensures multiset(RemoveFirst(s, c)) == multiset(s) - multiset{c}
  {
    assert s == [s[0]] + s[1..];
    if s[0] != c {
      RemoveFirstCount(s[1..], c);
    }
  }

  /**
   * Checks the action, removes the card from the hand and appends it to the
   * addressed pile; the pile keeps its direction and the deck is untouched.
   */
  function TakeAction(s: GameState, a: PlayerAction): (r: Result<GameState>)
    ensures r.Ok? ==> r.value.deck == s.deck && |r.value.piles| == |s.piles| && |r.value.hand| == |s.hand| - 1
  {
    match IsValidAction(s, a)
    case Err(e) => Err(e)
    case Ok(valid) =>
      if !valid then Err(InvalidAction)
      else
        var j := ResolveIndex(a.pile, |s.piles|).value;
        var pile := s.piles[j];
        Ok(GameState(s.piles[j := CardPile(pile.cards + [a.card], pile.ascending)],
                     RemoveFirst(s.hand, a.card), s.deck))
  }

  /**
   * `TakeAction` fails with `InvalidAction` when the card is not in the hand
   * or the addressed pile rejects it, and with `IndexOutOfRange` when the
   * card is in the hand but the pile index addresses no pile.
   */
  lemma {:induction false} TakeActionFails(s: GameState, a: PlayerAction)
    ensures TakeAction(s, a).Err? <==> IsValidAction(s, a) != Ok(true)
    ensures a.card !in s.hand ==> TakeAction(s, a) == Err(InvalidAction)
    ensures a.card in s.hand && !(-|s.piles| <= a.pile < |s.piles|) ==>
      TakeAction(s, a) == Err(IndexOutOfRange)
    ensures (a.card in s.hand && -|s.piles| <= a.pile < |s.piles| &&
             !PlacementIsValid(s.piles[ResolveIndex(a.pile, |s.piles|).value], a.card)) ==>
      TakeAction(s, a) == Err(InvalidAction)
  {
  }

  /**
   * On success exactly one card moves from the hand onto the addressed pile:
   * nothing else changes, and no card appears or disappears.
   */
  lemma {:induction false} TakeActionEffect(s: GameState, a: PlayerAction)
    requires TakeAction(s, a).Ok?
    ensures -|s.piles| <= a.pile < |s.piles| && a.card in s.hand
    ensures var t := TakeAction(s, a).value;
      var j := ResolveIndex(a.pile, |s.piles|).value;
      && PlacementIsValid(s.piles[j], a.card)
      && t.hand == s.hand[..IndexOf(s.hand, a.card)] + s.hand[IndexOf(s.hand, a.card) + 1..]
      && multiset(t.hand) == multiset(s.hand) - multiset{a.card}
      && |t.hand| == |s.hand| - 1
      && |t.piles| == |s.piles|
      && t.piles[j].cards == s.piles[j].cards + [a.card]
      && FaceCard(t.piles[j]) == a.card
      && t.piles[j].ascending == s.piles[j].ascending
      && (forall k :: 0 <= k < |s.piles| && k != j ==> t.piles[k] == s.piles[k])
      && t.deck == s.deck
      && CardCount(t) == CardCount(s)
      && AllCards(t) == AllCards(s)
  {
    TakeActionHand(s, a);
    TakeActionCards(s, a);
  }

  /** On success the game's cards, and their number, are unchanged. */
  lemma {:induction false} TakeActionCards(s: GameState, a: PlayerAction)
    requires TakeAction(s, a).Ok?
    ensures CardCount(TakeAction(s, a).value) == CardCount(s)
    ensures AllCards(TakeAction(s, a).value) == AllCards(s)
  {
    var j := ResolveIndex(a.pile, |s.piles|).value;
    var t := TakeAction(s, a).value;
    assert t.piles == s.piles[j := CardPile(s.piles[j].cards + [a.card], s.piles[j].ascending)];
    PileAppend(s.piles, j, a.card);
    TakeActionHand(s, a);
    assert multiset(s.hand) == multiset(t.hand) + multiset{a.card};
    assert PileContents(t.piles) == PileContents(s.piles) + multiset{a.card};
  }

  /** On success the card's first copy is cut out of the hand, which keeps its order. */
  lemma {:induction false} TakeActionHand(s: GameState, a: PlayerAction)
    requires TakeAction(s, a).Ok?
    ensures a.card in s.hand
    ensures var t := TakeAction(s, a).value;
      && t.hand == s.hand[..IndexOf(s.hand, a.card)] + s.hand[IndexOf(s.hand, a.card) + 1..]
      && multiset(t.hand) == multiset(s.hand) - multiset{a.card}
  {
    RemoveFirstCount(s.hand, a.card);
    RemoveFirstAt(s.hand, a.card);
  }

  /** Every listed legal action succeeds and uses up one card of the hand. */
  lemma {:induction false} ValidActionSucceeds(s: GameState, a: PlayerAction)
    requires a in ValidActions(s)
    ensures TakeAction(s, a).Ok?
    ensures |TakeAction(s, a).value.hand| == |s.hand| - 1
    ensures |TakeAction(s, a).value.piles| == |s.piles|
  {
    ValidActionsExactly(s, a);
    TakeActionEffect(s, a);
  }

  /** Cards compare by value (`Card.__lt__`). */
  function CardLe(x: Card, y: Card): bool {
    x <= y
  }

  lemma {:induction false} CardLeIsTotalOrder()
    ensures Sorting.TotalOrder(CardLe)
  {
  }

  /**
   * Pops the top (last) card of the deck into the hand and re-sorts the
   * hand; an empty deck fails, as `pop` on an empty list does.
   */
  function DrawCard(s: GameState): (r: Result<GameState>)
    ensures r.Err? <==> s.deck == []
    ensures r.Err? ==> r.error == EmptyDeck
  {
    if |s.deck| == 0 then Err(EmptyDeck)
    else
      var drawn := s.deck[|s.deck| - 1];
      Ok(GameState(s.piles, Sorting.Sort(s.hand + [drawn], CardLe), s.deck[..|s.deck| - 1]))
  }

  /**
   * Drawing moves the last deck card into the hand and leaves the piles
   * alone; an empty deck is the only failure.
   */
  lemma {:induction false} DrawCardEffect(s: GameState)
    ensures DrawCard(s).Err? <==> s.deck == []
    ensures s.deck == [] ==> DrawCard(s) == Err(EmptyDeck)
    ensures s.deck != [] ==>
      var t := DrawCard(s).value;
      && t.piles == s.piles
      && t.deck == s.deck[..|s.deck| - 1]
      && multiset(t.hand) == multiset(s.hand) + multiset{s.deck[|s.deck| - 1]}
      && multiset(t.hand) + multiset(t.deck) == multiset(s.hand) + multiset(s.deck)
      && AllCards(t) == AllCards(s)
      && CardCount(t) == CardCount(s)
  {
    if s.deck != [] {
      var t := DrawCard(s).value;
      var drawn := s.deck[|s.deck| - 1];
      assert s.deck == t.deck + [drawn];
      assert multiset(s.deck) == multiset(t.deck) + multiset{drawn};
      assert |multiset(t.hand)| == |s.hand| + 1;
    }
  }

  /**
   * After a draw the hand is sorted by value, and it is the only sorted
   * arrangement of its cards, whichever sorting algorithm produced it.
   */
  lemma {:induction false} DrawCardSortsHand(s: GameState)
    requires s.deck != []
    ensures var t := DrawCard(s).value;
      && Sorting.SortedBy(t.hand, CardLe)
      && (forall h :: Sorting.SortedBy(h, CardLe) && multiset(h) == multiset(t.hand) ==> h == t.hand)
  {
    var t := DrawCard(s).value;
    var drawn := s.deck[|s.deck| - 1];
    CardLeIsTotalOrder();
    Sorting.SortSorted(s.hand + [drawn], CardLe);
    forall h | Sorting.SortedBy(h, CardLe) && multiset(h) == multiset(t.hand) ensures h == t.hand {
      Sorting.SortedUnique(h, t.hand, CardLe);
    }
  }

  /** Draws while the hand holds fewer than eight cards and the deck is not empty. */
  function DrawCardsSpec(s: GameState): GameState
    decreases |s.deck|
  {
    if |s.hand| < 8 && |s.deck| > 0 then DrawCardsSpec(DrawCard(s).value) else s
  }

  function Min(a: int, b: int): int {
    if a < b then a else b
  }

  /**
   * Refilling stops with a full hand or an empty deck; from at most eight
   * cards it ends at min(8, |hand| + |deck|); the drawn cards come off the
   * top of the deck, the piles are untouched, and a hand that drew is sorted.
   */
  lemma {:induction false} DrawCardsSpecShape(s: GameState)
    ensures var t := DrawCardsSpec(s);
      && t.piles == s.piles
      && (|t.hand| >= 8 || t.deck == [])
      && (|s.hand| <= 8 ==> |t.hand| == Min(8, |s.hand| + |s.deck|))
      && (|s.hand| >= 8 ==> t == s)
      && |t.hand| + |t.deck| == |s.hand| + |s.deck|
      && t.deck == s.deck[..|t.deck|]
      && (|t.deck| < |s.deck| ==> Sorting.SortedBy(t.hand, CardLe))
    decreases |s.deck|
  {
    if |s.hand| < 8 && |s.deck| > 0 {
      DrawCardEffect(s);
      DrawCardSortsHand(s);
      var u := DrawCard(s).value;
      DrawCardsSpecShape(u);
      var t := DrawCardsSpec(u);
      assert t == DrawCardsSpec(s);
      assert t.deck == s.deck[..|t.deck|] by {
        assert t.deck == u.deck[..|t.deck|];
      }
      if |t.deck| == |u.deck| {
        assert t == u;
      }
    }
  }

  /** Refilling moves cards from the deck to the hand and loses none. */
  lemma {:induction false} DrawCardsSpecConserves(s: GameState)
    ensures var t := DrawCardsSpec(s);
      && multiset(t.hand) + multiset(t.deck) == multiset(s.hand) + multiset(s.deck)
      && AllCards(t) == AllCards(s)
      && CardCount(t) == CardCount(s)
    decreases |s.deck|
  {
    if |s.hand| < 8 && |s.deck| > 0 {
      DrawCardEffect(s);
      var u := DrawCard(s).value;
      DrawCardsSpecConserves(u);
      assert DrawCardsSpec(u) == DrawCardsSpec(s);
    }
  }

  /** The refill loop of the source: draw one card at a time. */
  method DrawCards(s: GameState) returns (state: GameState)
    ensures state == DrawCardsSpec(s)
    ensures |state.hand| >= 8 || state.deck == []
  {
    state := s;
    while |state.hand| < 8 && |state.deck| > 0
      invariant DrawCardsSpec(state) == DrawCardsSpec(s)
      decreases |state.deck|
    {
      var drawn := DrawCard(state);
      state := drawn.value;
    }
  }

  /** Applies the actions in order; the first failing action aborts with its error. */
  function ApplyActions(s: GameState, actions: seq<PlayerAction>): Result<GameState>
    decreases |actions|
  {
    if actions == [] then Ok(s)
    else match TakeAction(s, actions[0])
      case Err(e) => Err(e)
      case Ok(next) => ApplyActions(next, actions[1..])
  }

  /** A turn: the actions in order, then the refill. */
  function TakeTurnSpec(s: GameState, turn: PlayerTurn): Result<GameState> {
    match ApplyActions(s, turn.actions)
    case Err(e) => Err(e)
    case Ok(placed) => Ok(DrawCardsSpec(placed))
  }

  /** The loop of the source: take each action, then refill the hand. */
  method TakeTurn(s: GameState, turn: PlayerTurn) returns (result: Result<GameState>)
    ensures result == TakeTurnSpec(s, turn)
  {
    var state := s;
    for i := 0 to |turn.actions|
      invariant ApplyActions(state, turn.actions[i..]) == ApplyActions(s, turn.actions)
    {
      assert turn.actions[i..][1..] == turn.actions[i + 1..];
      var next := TakeAction(state, turn.actions[i]);
      if next.Err? {
        return Err(next.error);
      }
      state := next.value;
    }
    assert turn.actions[|turn.actions|..] == [];
    var refilled := DrawCards(state);
    return Ok(refilled);
  }

  /**
   * Applying actions moves cards from the hand to the piles only: the deck,
   * the number of piles, the card count and the cards themselves are kept,
   * and the hand shrinks by one card per action.
   */
  lemma {:induction false} ApplyActionsEffect(s: GameState, actions: seq<PlayerAction>)
    requires ApplyActions(s, actions).Ok?
    ensures var t := ApplyActions(s, actions).value;
      && t.deck == s.deck
      && |t.piles| == |s.piles|
      && |t.hand| == |s.hand| - |actions|
      && CardCount(t) == CardCount(s)
      && AllCards(t) == AllCards(s)
    decreases |actions|
  {
    if actions != [] {
      TakeActionEffect(s, actions[0]);
      ApplyActionsEffect(TakeAction(s, actions[0]).value, actions[1..]);
    }
  }

  /**
   * A failed sequence failed at its first action that `TakeAction` rejects,
   * with that action's error.
   */
  lemma {:induction false} ApplyActionsFailsAt(s: GameState, actions: seq<PlayerAction>)
    requires ApplyActions(s, actions).Err?
    ensures exists k :: (0 <= k < |actions| && ApplyActions(s, actions[..k]).Ok? &&
      TakeAction(ApplyActions(s, actions[..k]).value, actions[k]) == Err(ApplyActions(s, actions).error))
    decreases |actions|
  {
    assert actions != [];
    assert actions[..0] == [];
    match TakeAction(s, actions[0])
    case Err(e) =>
    case Ok(next) =>
      ApplyActionsFailsAt(next, actions[1..]);
      var k :| 0 <= k < |actions[1..]| && ApplyActions(next, actions[1..][..k]).Ok? &&
        TakeAction(ApplyActions(next, actions[1..][..k]).value, actions[1..][k]) == Err(ApplyActions(next, actions[1..]).error);
      assert actions[..k + 1][0] == actions[0];
      assert actions[..k + 1][1..] == actions[1..][..k];
  }

  /** A whole turn conserves the cards and their count. */
  lemma {:induction false} TakeTurnConserves(s: GameState, turn: PlayerTurn)
    requires TakeTurnSpec(s, turn).Ok?
    ensures var t := TakeTurnSpec(s, turn).value;
      |t.piles| == |s.piles| && CardCount(t) == CardCount(s) && AllCards(t) == AllCards(s)
  {
    ApplyActionsEffect(s, turn.actions);
    DrawCardsSpecShape(ApplyActions(s, turn.actions).value);
    DrawCardsSpecConserves(ApplyActions(s, turn.actions).value);
  }

  /** Taking `a` succeeds and leaves a legal follow-up action. */
  predicate Continues(s: GameState, a: PlayerAction) {
    TakeAction(s, a).Ok? && HasOneValidAction(TakeAction(s, a).value)
  }

  /** A turn needs two actions in a row: a legal action followed by another one. */
  predicate HasOneValidTurn(s: GameState): (r: bool)
    ensures r ==> HasOneValidAction(s)
  {
    exists a :: a in ValidActions(s) && Continues(s, a)
  }

  /**
   * The source's search: no turn without a legal action; otherwise the first
   * legal action that leaves a legal follow-up action settles it.
   */
  method SearchValidTurn(s: GameState) returns (found: bool)
    ensures found <==> HasOneValidTurn(s)
    ensures !HasOneValidAction(s) ==> !found
  {
    if !HasOneValidAction(s) {
      return false;
    }
    var actions := AllValidActions(s);
    for i := 0 to |actions|
      invariant forall k :: 0 <= k < i ==> !Continues(s, actions[k])
    {
      ValidActionSucceeds(s, actions[i]);
      var next := TakeAction(s, actions[i]).value;
      if HasOneValidAction(next) {
        assert Continues(s, actions[i]);
        return true;
      }
    }
    NoneContinues(s, actions);
    return false;
  }

  /** When no listed action leads to a state with a legal action, there is no turn. */
  lemma {:induction false} NoneContinues(s: GameState, actions: seq<PlayerAction>)
    requires actions == ValidActions(s)
    requires forall k :: 0 <= k < |actions| ==> !Continues(s, actions[k])
    ensures !HasOneValidTurn(s)
  {
    forall a | a in actions ensures !Continues(s, a) {
      var k := Position(actions, a);
    }
  }

  /** Where `x` occurs in `s`. */
  lemma {:induction false} Position<T>(s: seq<T>, x: T) returns (k: nat)
    requires x in s
    ensures k < |s| && s[k] == x
  {
    k :| 0 <= k < |s| && s[k] == x;
  }

  /** A won state has no valid turn, and refilling leaves it as it is. */
  lemma {:induction false} WonStateIsFinal(s: GameState)
    requires HasWon(s)
    ensures !HasOneValidAction(s) && !HasOneValidTurn(s) && DrawCardsSpec(s) == s
  {
    WonStateHasNoAction(s);
  }
}
