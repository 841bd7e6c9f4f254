/**
 * Cards, card piles and the placement rule of "The Game".
 *
 * A card is its integer value (2..99 in play; 1 and 100 seed the piles).
 * A pile is the history of cards played on it plus a fixed direction flag;
 * its face card is the last one. Piles are never empty: they are created
 * holding their seed card and only ever grow.
 */
module Cards {

  type Card = int

  /** The ways an operation of the rules engine can fail. */
  datatype GameError =
    | InvalidAction     // the card is not in the hand, or the pile rejects it
    | IndexOutOfRange   // a list index outside the list (Python's IndexError)
    | EmptyDeck         // popping a card from an empty deck

  datatype Result<T> = Ok(value: T) | Err(error: GameError)

  datatype Option<T> = None | Some(value: T)

  datatype CardPile = CardPile(cards: seq<Card>, ascending: bool)

  /** A pile always holds at least its seed card. */
  type Pile = p: CardPile | |p.cards| > 0 witness CardPile([1], true)

  /** The face card: the card placed last, which is the one play is measured against. */
  function FaceCard(p: Pile): (r: Card)
    ensures r in p.cards
  {
    p.cards[|p.cards| - 1]
  }

  predicate Descending(p: Pile) {
    !p.ascending
  }

  /**
   * A card may go on an ascending pile above its face, on a descending pile
   * below its face, and on any pile exactly ten above or below its face.
   */
  predicate PlacementIsValid(p: Pile, card: Card): (r: bool)
    ensures r <==> (if p.ascending then card > FaceCard(p) else card < FaceCard(p))
                   || card == FaceCard(p) + 10 || card == FaceCard(p) - 10
    ensures card == FaceCard(p) ==> !r
  {
    if card > FaceCard(p) && p.ascending then true
    else if card < FaceCard(p) && Descending(p) then true
    else if card == FaceCard(p) + 10 || card == FaceCard(p) - 10 then true
    else false
  }

  /** The cards of `hand`, in hand order, that the pile accepts. */
  function ValidCards(p: Pile, hand: seq<Card>): (r: seq<Card>)
    ensures |r| <= |hand|
    ensures forall c :: c in r <==> c in hand && PlacementIsValid(p, c)
  {
    if hand == [] then []
    else (if PlacementIsValid(p, hand[0]) then [hand[0]] else []) + ValidCards(p, hand[1..])
  }

  /**
   * Maps each card of `hand` that the pile accepts to the change of the
   * face card's value if it were placed there.
   */
  method ChangeIfPlaced(p: Pile, hand: seq<Card>) returns (result: map<Card, int>)
    ensures forall c :: c in result <==> c in hand && PlacementIsValid(p, c)
    ensures forall c :: c in result ==> result[c] == c - FaceCard(p)
  {
    result := map[];
    var valid := ValidCards(p, hand);
    for k := 0 to |valid|
      invariant forall c :: c in result <==> c in valid[..k]
      invariant forall c :: c in result ==> result[c] == c - FaceCard(p)
    {
      assert valid[..k + 1] == valid[..k] + [valid[k]];
      result := result[valid[k] := valid[k] - FaceCard(p)];
    }
    assert valid[..|valid|] == valid;
  }
}
