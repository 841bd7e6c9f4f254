/**
 * Player actions, turns and the game state, with the read-only queries
 * a strategy or the game loop asks of a state.
 */
module GameStates {
  import opened Cards

  /** Place `card` from the hand on the pile at index `pile`. */
  datatype PlayerAction = PlayerAction(card: Card, pile: int)

  /** The actions of one turn, applied in order before the refill. */
  datatype PlayerTurn = PlayerTurn(actions: seq<PlayerAction>)

  /** The piles, the hand, and the deck (whose last card is drawn next). */
  datatype GameState = GameState(piles: seq<Pile>, hand: seq<Card>, deck: seq<Card>)

  predicate NoDuplicates(s: seq<Card>) {
    forall i, j :: 0 <= i < j < |s| ==> s[i] != s[j]
  }

  /**
   * Python list indexing: `xs[i]` addresses element `i` when `0 <= i < n`,
   * element `n + i` when `-n <= i < 0`, and raises IndexError otherwise.
   */
  function ResolveIndex(i: int, n: nat): (r: Option<nat>)
    ensures r.Some? <==> -(n as int) <= i < n
    ensures r.Some? ==> r.value < n && (if i >= 0 then r.value == i else r.value == n + i)
  {
    if 0 <= i < n then Some(i)
    else if -(n as int) <= i < 0 then Some(n + i)
    else None
  }

  /**
   * The card must be in the hand (checked first, so a missing card never
   * reaches the pile lookup) and the addressed pile must accept it.
   */
  function IsValidAction(s: GameState, a: PlayerAction): (r: Result<bool>)
    ensures r == Ok(true) <==>
      a.card in s.hand && -|s.piles| <= a.pile < |s.piles|
      && PlacementIsValid(s.piles[if a.pile < 0 then |s.piles| + a.pile else a.pile], a.card)
    ensures r.Err? <==> a.card in s.hand && !(-|s.piles| <= a.pile < |s.piles|)
    ensures r.Err? ==> r.error == IndexOutOfRange
  {
    if a.card !in s.hand then Ok(false)
    else match ResolveIndex(a.pile, |s.piles|)
      case None => Err(IndexOutOfRange)
      case Some(j) => Ok(PlacementIsValid(s.piles[j], a.card))
  }

  /** The change of the addressed pile's face value if the action were taken. */
  function Change(a: PlayerAction, s: GameState): (r: Result<int>)
    ensures r.Ok? <==> -|s.piles| <= a.pile < |s.piles|
    ensures r.Err? ==> r.error == IndexOutOfRange
    ensures r.Ok? ==> FaceCard(s.piles[if a.pile < 0 then |s.piles| + a.pile else a.pile]) + r.value == a.card
  {
    match ResolveIndex(a.pile, |s.piles|)
    case None => Err(IndexOutOfRange)
    case Some(j) => Ok(a.card - FaceCard(s.piles[j]))
  }

  /** The change, negated on a descending pile (positive = in the pile's direction). */
  function ChangeNormalized(a: PlayerAction, s: GameState): (r: Result<int>)
    ensures r.Ok? <==> Change(a, s).Ok?
    ensures r.Err? ==> r.error == IndexOutOfRange
    ensures r.Ok? ==> r.value == Change(a, s).value || r.value == -Change(a, s).value
    ensures r.Ok? ==>
      var p := s.piles[if a.pile < 0 then |s.piles| + a.pile else a.pile];
      (r.value > 0 <==> if p.ascending then a.card > FaceCard(p) else a.card < FaceCard(p))
  {
    match ResolveIndex(a.pile, |s.piles|)
    case None => Err(IndexOutOfRange)
    case Some(j) =>
      if Descending(s.piles[j]) then Ok(-1 * Change(a, s).value) else Change(a, s)
  }

  /**
   * A placement is legal exactly when it moves the face card in the pile's
   * direction or jumps back by exactly ten.
   */
  lemma {:induction false} PlacementValidIffChange(s: GameState, a: PlayerAction)
    requires -|s.piles| <= a.pile < |s.piles|
    ensures Change(a, s).Ok? && ChangeNormalized(a, s).Ok?
    ensures var p := s.piles[ResolveIndex(a.pile, |s.piles|).value];
      PlacementIsValid(p, a.card) <==>
        ChangeNormalized(a, s).value > 0 || ChangeNormalized(a, s).value == -10
  {
  }

  /** Actions placing `card` on the piles `0 .. n-1` that accept it, by pile index. */
  function PileActions(piles: seq<Pile>, card: Card, n: nat): (r: seq<PlayerAction>)
    requires n <= |piles|
    ensures |r| <= n
  {
    if n == 0 then []
    else
      PileActions(piles, card, n - 1)
      + (if PlacementIsValid(piles[n - 1], card) then [PlayerAction(card, n - 1)] else [])
  }

  /** The actions for one card are exactly its placements on piles `0 .. n-1` that accept it. */
  lemma {:induction false} PileActionsMembers(piles: seq<Pile>, card: Card, n: nat)
    requires n <= |piles|
    ensures forall a :: a in PileActions(piles, card, n) <==>
      a.card == card && 0 <= a.pile < n && PlacementIsValid(piles[a.pile], card)
  {
    if n > 0 {
      PileActionsMembers(piles, card, n - 1);
    }
  }

  /** The actions for one card come by increasing pile index. */
  lemma {:induction false} PileActionsSorted(piles: seq<Pile>, card: Card, n: nat)
    requires n <= |piles|
    ensures forall i, j :: 0 <= i < j < |PileActions(piles, card, n)| ==>
      PileActions(piles, card, n)[i].pile < PileActions(piles, card, n)[j].pile
  {
    if n > 0 {
      PileActionsSorted(piles, card, n - 1);
      PileActionsMembers(piles, card, n - 1);
      var r := PileActions(piles, card, n);
      var left := PileActions(piles, card, n - 1);
      forall i, j | 0 <= i < j < |r| ensures r[i].pile < r[j].pile {
        assert r[i] == left[i];
        if j < |left| {
          assert r[j] == left[j];
        } else {
          assert r[i] in left;
          assert r[j] == PlayerAction(card, n - 1);
        }
      }
    }
  }

  /** Actions for the first `m` cards of the hand, card by card. */
  function HandActions(piles: seq<Pile>, hand: seq<Card>, m: nat): (r: seq<PlayerAction>)
    requires m <= |hand|
  {
    if m == 0 then []
    else
      HandActions(piles, hand, m - 1) + PileActions(piles, hand[m - 1], |piles|)
  }

  /** The actions for the first `m` cards are exactly their accepted placements. */
  lemma {:induction false} HandActionsMembers(piles: seq<Pile>, hand: seq<Card>, m: nat)
    requires m <= |hand|
    ensures forall a :: a in HandActions(piles, hand, m) <==>
      a.card in hand[..m] && 0 <= a.pile < |piles| && PlacementIsValid(piles[a.pile], a.card)
  {
    if m > 0 {
      HandActionsMembers(piles, hand, m - 1);
      PileActionsMembers(piles, hand[m - 1], |piles|);
      assert hand[..m] == hand[..m - 1] + [hand[m - 1]];
    }
  }

  /** Every legal action of the state: hand order outer, pile index inner. */
  function ValidActions(s: GameState): seq<PlayerAction> {
    HandActions(s.piles, s.hand, |s.hand|)
  }

  /** The nested loops of the source that collect the legal actions. */
  method AllValidActions(s: GameState) returns (result: seq<PlayerAction>)
    ensures result == ValidActions(s)
  {
    result := [];
    for i := 0 to |s.hand|
      invariant result == HandActions(s.piles, s.hand, i)
    {
      var card := s.hand[i];
      for pileIndex := 0 to |s.piles|
        invariant result == HandActions(s.piles, s.hand, i) + PileActions(s.piles, card, pileIndex)
      {
        if card in ValidCards(s.piles[pileIndex], s.hand) {
          result := result + [PlayerAction(card, pileIndex)];
        }
      }
    }
  }

  /**
   * The legal actions are exactly the actions with a non-negative pile index
   * that `IsValidAction` accepts.
   */
  lemma {:induction false} ValidActionsExactly(s: GameState, a: PlayerAction)
    ensures a in ValidActions(s) <==> 0 <= a.pile < |s.piles| && IsValidAction(s, a) == Ok(true)
  {
    HandActionsMembers(s.piles, s.hand, |s.hand|);
    assert s.hand[..|s.hand|] == s.hand;
  }

  /** Position of the first occurrence of `c` in `s`. */
  function IndexOf(s: seq<Card>, c: Card): (k: nat)
    requires c in s
    ensures k < |s| && s[k] == c && c !in s[..k]
  {
    if s[0] == c then 0 else 1 + IndexOf(s[1..], c)
  }

  /** `a` comes before `b`: earlier hand card, or same card and lower pile index. */
  predicate Precedes(hand: seq<Card>, a: PlayerAction, b: PlayerAction)
    requires a.card in hand && b.card in hand
  {
    IndexOf(hand, a.card) < IndexOf(hand, b.card)
    || (a.card == b.card && a.pile < b.pile)
  }

  lemma {:induction false} IndexOfBelow(hand: seq<Card>, m: nat, c: Card)
    requires m <= |hand| && c in hand[..m]
    ensures IndexOf(hand, c) < m
  {
    var k :| 0 <= k < m && hand[k] == c;
  }

  lemma {:induction false} IndexOfDistinct(hand: seq<Card>, k: nat)
    requires NoDuplicates(hand) && k < |hand|
    ensures IndexOf(hand, hand[k]) == k
  {
  }

  /** Actions listed by hand position first and pile index second. */
  predicate OrderedByHand(hand: seq<Card>, r: seq<PlayerAction>) {
    forall i, j :: 0 <= i < j < |r| ==>
      r[i].card in hand && r[j].card in hand && Precedes(hand, r[i], r[j])
  }

  lemma {:induction false} AppendCardBlock(hand: seq<Card>, m: nat, left: seq<PlayerAction>, right: seq<PlayerAction>)
    requires NoDuplicates(hand) && 0 < m <= |hand|
    requires OrderedByHand(hand, left)
    requires forall a :: a in left ==> a.card in hand[..m - 1]
    requires forall i :: 0 <= i < |right| ==> right[i].card == hand[m - 1]
    requires forall i, j :: 0 <= i < j < |right| ==> right[i].pile < right[j].pile
    ensures OrderedByHand(hand, left + right)
  {
    var r := left + right;
    IndexOfDistinct(hand, m - 1);
    forall i, j | 0 <= i < j < |r|
      ensures r[i].card in hand && r[j].card in hand && Precedes(hand, r[i], r[j])
    {
      if j < |left| {
        assert r[i] == left[i] && r[j] == left[j];
      } else if i >= |left| {
        assert r[i] == right[i - |left|] && r[j] == right[j - |left|];
      } else {
        assert r[i] == left[i] && r[i] in left;
        assert r[j] == right[j - |left|];
        IndexOfBelow(hand, m - 1, r[i].card);
      }
    }
  }

  lemma {:induction false} HandActionsOrdered(piles: seq<Pile>, hand: seq<Card>, m: nat)
    requires m <= |hand|
    requires NoDuplicates(hand)
    ensures OrderedByHand(hand, HandActions(piles, hand, m))
  {
    if m > 0 {
      HandActionsOrdered(piles, hand, m - 1);
      var left := HandActions(piles, hand, m - 1);
      var right := PileActions(piles, hand[m - 1], |piles|);
      PileActionsSorted(piles, hand[m - 1], |piles|);
      PileActionsMembers(piles, hand[m - 1], |piles|);
      HandActionsMembers(piles, hand, m - 1);
      forall i | 0 <= i < |right| ensures right[i].card == hand[m - 1] {
        assert right[i] in right;
      }
      AppendCardBlock(hand, m, left, right);
    }
  }

  /**
   * With a hand of distinct cards, the legal actions are listed by hand
   * position first and pile index second.
   */
  lemma {:induction false} ValidActionsOrdered(s: GameState)
    requires NoDuplicates(s.hand)
    ensures OrderedByHand(s.hand, ValidActions(s))
  {
    assert ValidActions(s) == HandActions(s.piles, s.hand, |s.hand|);
    HandActionsOrdered(s.piles, s.hand, |s.hand|);
  }

  predicate HasOneValidAction(s: GameState): (r: bool)
    ensures r <==> exists c, i :: c in s.hand && 0 <= i < |s.piles| && PlacementIsValid(s.piles[i], c)
  {
    SomeValidAction(s);
    |ValidActions(s)| > 0
  }

  /** The listing is non-empty exactly when some pile accepts some card of the hand. */
  lemma {:induction false} SomeValidAction(s: GameState)
    ensures |ValidActions(s)| > 0 <==>
      exists c, i :: c in s.hand && 0 <= i < |s.piles| && PlacementIsValid(s.piles[i], c)
  {
    if |ValidActions(s)| > 0 {
      var a := ValidActions(s)[0];
      ValidActionsExactly(s, a);
      assert a.card in s.hand && 0 <= a.pile < |s.piles| && PlacementIsValid(s.piles[a.pile], a.card);
    }
    forall c, i | c in s.hand && 0 <= i < |s.piles| && PlacementIsValid(s.piles[i], c)
      ensures PlayerAction(c, i) in ValidActions(s)
    {
      ValidActionsExactly(s, PlayerAction(c, i));
    }
  }

  /** The game is won when the hand and the deck are both empty. */
  predicate HasWon(s: GameState): (r: bool)
    ensures r ==> AllCards(s) == PileContents(s.piles) && CardCount(s) == PileSizes(s.piles)
  {
    |s.hand| == 0 && |s.deck| == 0
  }

  /** A won state offers no action, so the game loop stops on it. */
  lemma {:induction false} WonStateHasNoAction(s: GameState)
    requires HasWon(s)
    ensures !HasOneValidAction(s)
  {
  }

  /** Whether some pile accepts `card` from the hand (the source's `Card.has_valid_play`). */
  method HasValidPlay(card: Card, s: GameState) returns (found: bool)
    ensures found <==> exists j :: 0 <= j < |s.piles| && card in s.hand && PlacementIsValid(s.piles[j], card)
    ensures found <==> exists a :: a in ValidActions(s) && a.card == card
  {
    found := false;
    var j := 0;
    while j < |s.piles|
      invariant 0 <= j <= |s.piles|
      invariant forall k :: 0 <= k < j ==> !(card in s.hand && PlacementIsValid(s.piles[k], card))
    {
      if card in ValidCards(s.piles[j], s.hand) {
        found := true;
        ValidActionsExactly(s, PlayerAction(card, j));
        return;
      }
      j := j + 1;
    }
    forall a | a in ValidActions(s) ensures a.card != card {
      ValidActionsExactly(s, a);
    }
  }

  /** Number of cards over all piles. */
  function PileSizes(piles: seq<Pile>): nat {
    if piles == [] then 0 else PileSizes(piles[..|piles| - 1]) + |piles[|piles| - 1].cards|
  }

  /** All cards over all piles. */
  function PileContents(piles: seq<Pile>): multiset<Card> {
    if piles == [] then multiset{} else PileContents(piles[..|piles| - 1]) + multiset(piles[|piles| - 1].cards)
  }

  /** |hand| + |deck| + the sizes of all piles. */
  function CardCount(s: GameState): nat {
    |s.hand| + |s.deck| + PileSizes(s.piles)
  }

  /** Every card of the game, wherever it is. */
  function AllCards(s: GameState): multiset<Card> {
    multiset(s.hand) + multiset(s.deck) + PileContents(s.piles)
  }

  /** Appending one card to one pile adds exactly that card to the piles. */
  lemma {:induction false} PileAppend(piles: seq<Pile>, j: nat, c: Card)
    requires j < |piles|
    ensures var q := piles[j := CardPile(piles[j].cards + [c], piles[j].ascending)];
      PileSizes(q) == PileSizes(piles) + 1 && PileContents(q) == PileContents(piles) + multiset{c}
  {
    var q := piles[j := CardPile(piles[j].cards + [c], piles[j].ascending)];
    var n := |piles|;
    if j == n - 1 {
      assert q[..n - 1] == piles[..n - 1];
    } else {
      assert q[..n - 1] == piles[..n - 1][j := CardPile(piles[j].cards + [c], piles[j].ascending)];
      PileAppend(piles[..n - 1], j, c);
    }
  }
}
