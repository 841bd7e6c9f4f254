/**
 * Setting up a game: the shuffled deck, the four seeded piles and the
 * initial state with a full hand.
 *
 * The deck is shuffled by pairing each card 2..99 with a random key and
 * sorting the (key, card) pairs. The keys come from Python's seeded random
 * generator; here they are a parameter, `keys[n - 2]` being the key of card n.
 */
module Setup {
  import opened Cards
  import opened GameStates
  import opened Transitions
  import Sorting

  /** The cards lo, lo + 1, ..., hi - 1. */
  function CardRange(lo: int, hi: int): (r: seq<Card>)
    requires lo <= hi
    ensures |r| == hi - lo
    ensures forall i :: 0 <= i < |r| ==> r[i] == lo + i
  {
    seq(hi - lo, i => lo + i)
  }

  /** Each card of the range occurs exactly once in it. */
  lemma {:induction false} CardRangeCount(lo: int, hi: int, c: Card)
    requires lo <= hi
    ensures multiset(CardRange(lo, hi))[c] == if lo <= c < hi then 1 else 0
    decreases hi - lo
  {
    if lo < hi {
      CardRangeCount(lo + 1, hi, c);
      assert CardRange(lo, hi) == [lo] + CardRange(lo + 1, hi);
    }
  }

  /** The (key, card) pairs for the cards 2..99. */
  function KeyedCards(keys: seq<int>): (r: seq<(int, Card)>)
    requires |keys| == 98
  {
    seq(98, i requires 0 <= i < 98 => (keys[i], i + 2))
  }

  /** Python's tuple order: by key, then by card. */
  function KeyLe(x: (int, Card), y: (int, Card)): bool {
    x.0 < y.0 || (x.0 == y.0 && x.1 <= y.1)
  }

  lemma {:induction false} KeyLeIsTotalOrder()
    ensures Sorting.TotalOrder(KeyLe)
  {
  }

  /** The cards of the pairs, in order. */
  function CardsOf(pairs: seq<(int, Card)>): seq<Card> {
    seq(|pairs|, i requires 0 <= i < |pairs| => pairs[i].1)
  }

  lemma {:induction false} CardsOfAppend(a: seq<(int, Card)>, b: seq<(int, Card)>)
    ensures CardsOf(a + b) == CardsOf(a) + CardsOf(b)
  {
    var l, r := CardsOf(a + b), CardsOf(a) + CardsOf(b);
    assert |l| == |r|;
    forall i | 0 <= i < |l| ensures l[i] == r[i] {
      if i < |a| {
        assert l[i] == (a + b)[i].1 == a[i].1;
      } else {
        assert l[i] == (a + b)[i].1 == b[i - |a|].1;
      }
    }
  }

  lemma {:induction false} CardsOfPermutation(ps: seq<(int, Card)>, qs: seq<(int, Card)>)
    requires multiset(ps) == multiset(qs)
    ensures multiset(CardsOf(ps)) == multiset(CardsOf(qs))
    decreases |ps|
  {
    if ps == [] {
      assert |qs| == |multiset(qs)| == 0;
    } else {
      var x := ps[0];
      assert x in multiset(qs);
      var k :| 0 <= k < |qs| && qs[k] == x;
      var rest := qs[..k] + qs[k + 1..];
      assert qs == qs[..k] + [x] + qs[k + 1..];
      assert ps == [x] + ps[1..];
      assert multiset(rest) == multiset(qs) - multiset{x} by {
        assert multiset(qs) == multiset(qs[..k]) + multiset{x} + multiset(qs[k + 1..]);
      }
      assert multiset(ps[1..]) == multiset(ps) - multiset{x} by {
        assert multiset(ps) == multiset{x} + multiset(ps[1..]);
      }
      CardsOfPermutation(ps[1..], rest);
      CardsOfAppend([x], ps[1..]);
      CardsOfAppend(qs[..k], qs[k + 1..]);
      CardsOfAppend(qs[..k], [x]);
      CardsOfAppend(qs[..k] + [x], qs[k + 1..]);
      assert CardsOf([x]) == [x.1];
    }
  }

  /** The deck: the cards 2..99 in the order of their keys. */
  function InitialDeck(keys: seq<int>): (deck: seq<Card>)
    requires |keys| == 98
    ensures |deck| == 98
  {
    CardsOf(Sorting.Sort(KeyedCards(keys), KeyLe))
  }

  /** The deck holds each card 2..99 exactly once, whatever the keys. */
  lemma {:induction false} InitialDeckIsPermutation(keys: seq<int>)
    requires |keys| == 98
    ensures var deck := InitialDeck(keys);
      && |deck| == 98
      && multiset(deck) == multiset(CardRange(2, 100))
      && (forall c :: multiset(deck)[c] == if 2 <= c <= 99 then 1 else 0)
  {
    var keyed := KeyedCards(keys);
    var deck := InitialDeck(keys);
    CardsOfPermutation(Sorting.Sort(keyed, KeyLe), keyed);
    assert CardsOf(keyed) == CardRange(2, 100);
    forall c ensures multiset(deck)[c] == if 2 <= c <= 99 then 1 else 0 {
      CardRangeCount(2, 100, c);
    }
  }

  /** Each sorted pair still carries the key that card was given. */
  lemma {:induction false} SortedPairsKeepKeys(keys: seq<int>, i: int)
    requires |keys| == 98
    requires 0 <= i < |Sorting.Sort(KeyedCards(keys), KeyLe)|
    ensures var p := Sorting.Sort(KeyedCards(keys), KeyLe)[i];
      2 <= p.1 <= 99 && p.0 == keys[p.1 - 2]
  {
    var keyed := KeyedCards(keys);
    var p := Sorting.Sort(keyed, KeyLe)[i];
    assert p in multiset(keyed);
    var k :| 0 <= k < |keyed| && keyed[k] == p;
  }

  /** Cards nearer the bottom of the deck (index 0) carry keys no larger than those above. */
  predicate DeckFollowsKeys(deck: seq<Card>, keys: seq<int>)
    requires |keys| == 98
  {
    forall i, j :: 0 <= i < j < |deck| ==> PairFollowsKeys(deck, keys, i, j)
  }

  /** The card at `i` carries a key no larger than the card at `j`. */
  predicate PairFollowsKeys(deck: seq<Card>, keys: seq<int>, i: int, j: int)
    requires |keys| == 98 && 0 <= i < j < |deck|
  {
    2 <= deck[i] <= 99 && 2 <= deck[j] <= 99 && keys[deck[i] - 2] <= keys[deck[j] - 2]
  }

  lemma {:induction false} DeckPairFollowsKeys(keys: seq<int>, i: int, j: int)
    requires |keys| == 98
    requires 0 <= i < j < |InitialDeck(keys)|
    ensures PairFollowsKeys(InitialDeck(keys), keys, i, j)
  {
    var sorted := Sorting.Sort(KeyedCards(keys), KeyLe);
    KeyLeIsTotalOrder();
    Sorting.SortSorted(KeyedCards(keys), KeyLe);
    SortedPairsKeepKeys(keys, i);
    SortedPairsKeepKeys(keys, j);
    assert KeyLe(sorted[i], sorted[j]);
  }

  /** A card with a smaller key lies deeper in the deck (nearer index 0). */
  lemma {:induction false} InitialDeckFollowsKeys(keys: seq<int>)
    requires |keys| == 98
    ensures DeckFollowsKeys(InitialDeck(keys), keys)
  {
    var deck := InitialDeck(keys);
    forall i, j | 0 <= i < j < |deck| ensures PairFollowsKeys(deck, keys, i, j) {
      DeckPairFollowsKeys(keys, i, j);
    }
  }

  /** Two ascending piles seeded with 1, then two descending piles seeded with 100. */
  function DefaultPiles(): seq<Pile> {
    [CardPile([1], true), CardPile([1], true), CardPile([100], false), CardPile([100], false)]
  }

  /** Builds the four piles by appending, as the source does. */
  method InitialPiles() returns (piles: seq<Pile>)
    ensures |piles| == 4
    ensures forall i :: 0 <= i < 4 ==>
      piles[i].cards == [if i < 2 then 1 else 100] && piles[i].ascending == (i < 2)
    ensures piles == DefaultPiles()
  {
    piles := [];
    for i := 0 to 2
      invariant |piles| == i
      invariant forall k :: 0 <= k < i ==> piles[k] == CardPile([1], true)
    {
      piles := piles + [CardPile([1], true)];
    }
    for i := 0 to 2
      invariant |piles| == 2 + i
      invariant forall k :: 0 <= k < 2 ==> piles[k] == CardPile([1], true)
      invariant forall k :: 2 <= k < 2 + i ==> piles[k] == CardPile([100], false)
    {
      piles := piles + [CardPile([100], false)];
    }
  }

  /** The initial state: the default piles, an empty hand and the shuffled deck, then a refill. */
  function InitialStateSpec(keys: seq<int>): GameState
    requires |keys| == 98
  {
    DrawCardsSpec(GameState(DefaultPiles(), [], InitialDeck(keys)))
  }

  method InitialState(keys: seq<int>) returns (state: GameState)
    requires |keys| == 98
    ensures state == InitialStateSpec(keys)
  {
    var deck := InitialDeck(keys);
    var piles := InitialPiles();
    var hand: seq<Card> := [];
    state := GameState(piles, hand, deck);
    state := DrawCards(state);
  }

  lemma {:induction false} DefaultPilesContents()
    ensures PileSizes(DefaultPiles()) == 4
    ensures PileContents(DefaultPiles()) == multiset{1, 1, 100, 100}
  {
    var p := DefaultPiles();
    assert p[..1][..0] == [];
    assert PileContents(p[..1]) == multiset{1} && PileSizes(p[..1]) == 1;
    assert p[..2][..1] == p[..1];
    assert PileContents(p[..2]) == multiset{1, 1} && PileSizes(p[..2]) == 2;
    assert p[..3][..2] == p[..2];
    assert PileContents(p[..3]) == multiset{1, 1, 100} && PileSizes(p[..3]) == 3;
    assert p[..4][..3] == p[..3] && p[..4] == p;
  }

  /**
   * A new game holds a sorted hand of the top eight deck cards, leaves 90
   * cards in the deck, and has every card 2..99 exactly once besides the
   * four seed cards: 102 cards in all.
   */
  lemma {:induction false} InitialStateFacts(keys: seq<int>)
    requires |keys| == 98
    ensures var s := InitialStateSpec(keys);
      && s.piles == DefaultPiles()
      && |s.hand| == 8
      && |s.deck| == 90
      && s.deck == InitialDeck(keys)[..90]
      && Sorting.SortedBy(s.hand, CardLe)
      && multiset(s.hand) + multiset(s.deck) == multiset(CardRange(2, 100))
      && AllCards(s) == multiset(CardRange(2, 100)) + multiset{1, 1, 100, 100}
      && CardCount(s) == 102
  {
    var start := GameState(DefaultPiles(), [], InitialDeck(keys));
    InitialDeckIsPermutation(keys);
    DrawCardsSpecShape(start);
    DrawCardsSpecConserves(start);
    DefaultPilesContents();
  }
}
