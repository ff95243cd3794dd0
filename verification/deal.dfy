/**
  Dealing: one shuffled deck laid out into a player's stock and seven tableau
  piles, and the initial match state with both players dealt from it.
 */
module Deal {
  import opened GameTypes
  import opened Piles
  import opened Deck
  import opened Shuffle

  /** Tableau pile `i` as dealt: the cards at offsets 24 + 4i .. 24 + 4i + 3, top card turned up. */
  function DealtPile(deck: seq<Card>, i: nat): (pile: seq<Card>)
    requires 24 + 4 * i < |deck|
    ensures |pile| == Min(4, |deck| - (24 + 4 * i))
    ensures forall k | 0 <= k < |pile| ::
      pile[k] == deck[24 + 4 * i + k].(faceUp := deck[24 + 4 * i + k].faceUp || k == |pile| - 1)
  {
    RevealTop(Slice(deck, 24 + 4 * i, 24 + 4 * (i + 1)))
  }

  /** The seven tableau piles dealt from `deck`. */
  function DealTableau(deck: seq<Card>): (tableau: seq<seq<Card>>)
    requires |deck| >= 49
    ensures |tableau| == 7
  {
    seq(7, i requires 0 <= i < 7 => DealtPile(deck, i))
  }

  /**
    `initializePlayerState`: the first 24 cards form the stock; the next 28
    are dealt four to a pile into seven tableau piles, in order, and only
    the last card of each pile is turned face-up. Foundations and waste start
    empty, as do the timer, the move log and the stock-pass count.
    The deck must reach into the last pile (49 cards), or the dealer
    turns over a card that does not exist.
   */
  function InitializePlayerState(deck: seq<Card>): (p: PlayerState)
    requires |deck| >= 49
    ensures p.stock == deck[..24]
    ensures p.waste == [] && p.foundations == [[], [], [], []]
    ensures |p.tableau| == 7
    ensures forall i | 0 <= i < 7 :: |p.tableau[i]| == Min(4, |deck| - (24 + 4 * i))
    ensures forall i | 0 <= i < 7 :: 24 + 4 * i + |p.tableau[i]| <= |deck|
    ensures forall i, k | 0 <= i < 7 && 0 <= k < |p.tableau[i]| ::
      p.tableau[i][k] == deck[24 + 4 * i + k].(faceUp := deck[24 + 4 * i + k].faceUp || k == |p.tableau[i]| - 1)
    ensures p.timer == 0.0 && p.moveLog == [] && p.stockPasses == 0
  {
    PlayerState(
      DealTableau(deck),
      [[], [], [], []],
      Slice(deck, 0, 24),
      [],
      0.0,
      [],
      0)
  }

  /**
    `initializeGame`: builds the deck, shuffles it once with the given seed,
    and deals that one shuffled sequence to both players. The seed itself is
    chosen by the caller; `rand` stands for the generator's output.
   */
  function InitializeGame(config: GameConfig, seed: int, rand: int -> UnitInterval): (g: GameState)
    ensures g.player1 == g.player2
    ensures g.player1 == InitializePlayerState(Shuffled(CreateDeck(), seed, rand))
    ensures g.currentPlayer == 1
    ensures g.startTime == None && g.endTime == None && g.winner == None
    ensures g.shuffleSeed == seed
    ensures g.maxStockPasses == config.maxStockPasses && g.cardsPerDraw == config.cardsPerDraw
  {
    var shuffled := Shuffled(CreateDeck(), seed, rand);
    GameState(
      InitializePlayerState(shuffled),
      InitializePlayerState(shuffled),
      1,
      None,
      None,
      None,
      seed,
      config.maxStockPasses,
      config.cardsPerDraw)
  }

  /** A dealt pile holds the identities of its four cards of the deck, in order. */
  lemma DealtPileKeys(deck: seq<Card>, i: nat)
    requires |deck| == 52 && i < 7
    ensures KeySeq(DealTableau(deck)[i]) == KeySeq(deck[24 + 4 * i..28 + 4 * i])
  {
    var slice := deck[24 + 4 * i..28 + 4 * i];
    assert DealTableau(deck)[i] == RevealTop(slice);
    KeysRevealTop(slice);
  }

  /**
    Piles that each hold the identities of consecutive four-card blocks of
    `s` together hold the identities of all of `s`, in order.
   */
  lemma {:induction false} BlocksKeys(t: seq<seq<Card>>, s: seq<Card>)
    requires |s| == 4 * |t|
    requires forall i | 0 <= i < |t| :: KeySeq(t[i]) == KeySeq(s[4 * i..4 * i + 4])
    ensures KeySeq(Flatten(t)) == KeySeq(s)
    decreases |t|
  {
    if |t| > 0 {
      var n := |t| - 1;
      var init, front, last := t[..n], s[..4 * n], s[4 * n..];
      forall i | 0 <= i < n ensures KeySeq(init[i]) == KeySeq(front[4 * i..4 * i + 4]) {
        assert init[i] == t[i] && front[4 * i..4 * i + 4] == s[4 * i..4 * i + 4];
      }
      BlocksKeys(init, front);
      assert s[4 * n..4 * n + 4] == last;
      assert s == front + last;
      KeySeqAppend(front, last);
      assert Flatten(t) == Flatten(init) + t[n];
      KeySeqAppend(Flatten(init), t[n]);
    }
  }

  /** The seven dealt piles hold the identities of cards 24 to 51 of the deck. */
  lemma TableauKeys(deck: seq<Card>)
    requires |deck| == 52
    ensures Keys(Flatten(DealTableau(deck))) == Keys(deck[24..52])
  {
    var t, s := DealTableau(deck), deck[24..52];
    forall i | 0 <= i < 7 ensures KeySeq(t[i]) == KeySeq(s[4 * i..4 * i + 4]) {
      DealtPileKeys(deck, i);
      SubSlice(deck, 24, 52, 4 * i, 4 * i + 4);
    }
    BlocksKeys(t, s);
  }

  /** A board laid out from a 52-card deck holds exactly the deck's identities. */
  lemma DealtBoardKeys(p: PlayerState, deck: seq<Card>)
    requires |deck| == 52
    requires p.stock == deck[..24] && p.waste == [] && p.foundations == [[], [], [], []]
    requires p.tableau == DealTableau(deck)
    ensures PlayerKeys(p) == Keys(deck)
  {
    var stock, rest := deck[..24], deck[24..52];
    TableauKeys(deck);
    FlattenEmpty(p.foundations);
    assert deck == stock + rest;
    KeysAppend(stock, rest);
    var none: multiset<CardKey> := multiset{};
    calc {
      PlayerKeys(p);
      Keys(stock) + Keys(p.waste) + Keys(Flatten(p.foundations)) + Keys(Flatten(p.tableau));
      { assert Keys(p.waste) == none && Keys(Flatten(p.foundations)) == none; }
      Keys(stock) + none + none + Keys(rest);
      Keys(stock) + Keys(rest);
    }
  }

  /** Dealing a 52-card deck neither loses nor duplicates a card. */
  lemma DealConservesCards(deck: seq<Card>)
    requires |deck| == 52
    ensures PlayerKeys(InitializePlayerState(deck)) == Keys(deck)
  {
    DealtBoardKeys(InitializePlayerState(deck), deck);
  }

  /** Every card of the shuffled deck is face-down, so each dealt tableau pile shows only its last card. */
  lemma ShuffledDeckFaceDown(seed: int, rand: int -> UnitInterval)
    ensures forall k | 0 <= k < |Shuffled(CreateDeck(), seed, rand)| :: !Shuffled(CreateDeck(), seed, rand)[k].faceUp
  {
    var deck, shuffled := CreateDeck(), Shuffled(CreateDeck(), seed, rand);
    DeckDistinct();
    forall k | 0 <= k < |shuffled| ensures !shuffled[k].faceUp {
      assert shuffled[k] in multiset(deck);
    }
  }

  /** Each player starts with every card identity of the standard deck exactly once. */
  lemma InitialDealIsFullDeck(config: GameConfig, seed: int, rand: int -> UnitInterval)
    ensures PlayerKeys(InitializeGame(config, seed, rand).player1) == Keys(CreateDeck())
    ensures PlayerKeys(InitializeGame(config, seed, rand).player2) == Keys(CreateDeck())
    ensures forall x: CardKey :: PlayerKeys(InitializeGame(config, seed, rand).player1)[x] == 1
  {
    var shuffled := Shuffled(CreateDeck(), seed, rand);
    DealConservesCards(shuffled);
    KeysOfPermutation(shuffled, CreateDeck());
    DeckKeysEachOnce();
  }
}
