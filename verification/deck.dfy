/**
  The suit and rank orders and the canonical 52-card deck.
 */
module Deck {
  import opened GameTypes
  import opened Piles

  /** The order in which the deck builder walks the suits. */
  const SUITS: seq<Suit> := [Hearts, Diamonds, Clubs, Spades]

  /** The ranks in rule order; a rank's position here is what the rules compare. */
  const RANKS: seq<Rank> :=
    [Ace, Two, Three, Four, Five, Six, Seven, Eight, Nine, Ten, Jack, Queen, King]

  /** `RANKS.indexOf(r)`: every rank is listed, so the position is always found. */
  function RankIndex(r: Rank): (i: nat)
    ensures i < |RANKS| && RANKS[i] == r
  {
    match r
    case Ace => 0
    case Two => 1
    case Three => 2
    case Four => 3
    case Five => 4
    case Six => 5
    case Seven => 6
    case Eight => 7
    case Nine => 8
    case Ten => 9
    case Jack => 10
    case Queen => 11
    case King => 12
  }

  /** The position of a suit in SUITS. */
  function SuitIndex(s: Suit): (i: nat)
    ensures i < |SUITS| && SUITS[i] == s
  {
    match s
    case Hearts => 0
    case Diamonds => 1
    case Clubs => 2
    case Spades => 3
  }

  /** Hearts and diamonds are red; clubs and spades are black. */
  predicate IsRed(s: Suit)
  {
    s == Hearts || s == Diamonds
  }

  /** SUITS lists four suits, each once, and RANKS thirteen ranks, each once. */
  lemma OrdersAreEnumerations()
    ensures |SUITS| == 4 && |RANKS| == 13
    ensures forall i | 0 <= i < |SUITS| :: SuitIndex(SUITS[i]) == i
    ensures forall i | 0 <= i < |RANKS| :: RankIndex(RANKS[i]) == i
  {
  }

  /** The inner loop of the deck builder: one face-down card of `suit` per rank, in rank order. */
  function SuitRun(suit: Suit): seq<Card>
  {
    seq(|RANKS|, r requires 0 <= r < |RANKS| => Card(suit, RANKS[r], false))
  }

  /** The outer loop of the deck builder over a list of suits. */
  function DeckOf(suits: seq<Suit>): (deck: seq<Card>)
    ensures |deck| == 13 * |suits|
    ensures forall k | 0 <= k < |deck| :: deck[k] == Card(suits[k / 13], RANKS[k % 13], false)
  {
    if |suits| == 0 then []
    else
      var rest := DeckOf(suits[1..]);
      assert forall k | 13 <= k < 13 * |suits| :: (k - 13) / 13 == k / 13 - 1 && (k - 13) % 13 == k % 13;
      SuitRun(suits[0]) + rest
  }

  /**
    `createDeck`: 52 face-down cards, suit-major in SUITS order and rank-minor
    in RANKS order, so card `k` has suit number `k / 13` and rank number `k % 13`.
   */
  function CreateDeck(): (deck: seq<Card>)
    ensures |deck| == 52
    ensures forall k | 0 <= k < 52 :: deck[k] == Card(SUITS[k / 13], RANKS[k % 13], false)
  {
    DeckOf(SUITS)
  }

  /** Every card of the deck is face-down and no two cards share a suit and rank. */
  lemma DeckDistinct()
    ensures forall k | 0 <= k < 52 :: !CreateDeck()[k].faceUp
    ensures forall i, j | 0 <= i < j < 52 :: Key(CreateDeck()[i]) != Key(CreateDeck()[j])
  {
    var deck := CreateDeck();
    OrdersAreEnumerations();
    forall i, j | 0 <= i < j < 52 ensures Key(deck[i]) != Key(deck[j]) {
      assert i == 13 * (i / 13) + i % 13 && j == 13 * (j / 13) + j % 13;
      if i / 13 != j / 13 {
        assert SuitIndex(deck[i].suit) != SuitIndex(deck[j].suit);
      } else {
        assert RankIndex(deck[i].rank) != RankIndex(deck[j].rank);
      }
    }
  }

  /** Every suit and rank combination is in the deck, at position 13 * suit + rank. */
  lemma DeckComplete(s: Suit, r: Rank)
    ensures CreateDeck()[13 * SuitIndex(s) + RankIndex(r)] == Card(s, r, false)
  {
    var k := 13 * SuitIndex(s) + RankIndex(r);
    assert k / 13 == SuitIndex(s) && k % 13 == RankIndex(r);
  }

  /** The deck holds every card identity exactly once. */
  lemma DeckKeysEachOnce()
    ensures forall x: CardKey :: Keys(CreateDeck())[x] == 1
  {
    DeckDistinct();
    forall x: CardKey ensures Keys(CreateDeck())[x] == 1 {
      DeckKeyOnce(x);
    }
  }

  lemma DeckKeyOnce(x: CardKey)
    requires forall i, j | 0 <= i < j < 52 :: Key(CreateDeck()[i]) != Key(CreateDeck()[j])
    ensures Keys(CreateDeck())[x] == 1
  {
    var k := 13 * SuitIndex(x.suit) + RankIndex(x.rank);
    DeckComplete(x.suit, x.rank);
    KeysOfDistinct(CreateDeck(), k);
  }
}
