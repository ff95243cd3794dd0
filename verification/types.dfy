/**
  The data model of the two-hand competitive solitaire engine: cards, piles,
  moves, one player's board and the shared match state.
 */
module GameTypes {

  /** A nullable value: the engine's `null` for start and end times and the winner. */
  datatype Option<+T> = None | Some(value: T)

  /** The four suits. */
  datatype Suit = Hearts | Diamonds | Clubs | Spades

  /** The thirteen ranks; the rules compare them by their position A..K. */
  datatype Rank =
    | Ace | Two | Three | Four | Five | Six | Seven
    | Eight | Nine | Ten | Jack | Queen | King

  /** A card is a plain value: its suit, its rank and which side is up. It has no identity of its own. */
  datatype Card = Card(suit: Suit, rank: Rank, faceUp: bool)

  /** The four kinds of pile on a player's board. */
  datatype PileKind = Stock | Waste | Foundation | Tableau

  /**
    A reference to a pile. The index picks one of the foundation or tableau
    piles; for the stock and the waste it is carried but never read.
   */
  datatype Location = Location(kind: PileKind, index: int)

  /** A move's destination: a foundation, a tableau pile or the waste, never the stock. */
  type Target = l: Location | l.kind != Stock witness Location(Foundation, 0)

  /**
    A proposed move. `kind` repeats `from.kind` by convention; `cards` are the
    cards the caller says it is moving; `timestamp` is a wall-clock instant in
    milliseconds.
   */
  datatype Move = Move(kind: PileKind, from: Location, to: Target, cards: seq<Card>, timestamp: int)

  /** One player's board. A pile's top card is its last element. */
  datatype PlayerState = PlayerState(
    tableau: seq<seq<Card>>,
    foundations: seq<seq<Card>>,
    stock: seq<Card>,
    waste: seq<Card>,
    timer: real,
    moveLog: seq<Move>,
    stockPasses: int)

  /** Players are numbered 1 and 2. */
  type PlayerId = n: int | n == 1 || n == 2 witness 1

  /** The configured number of cards per draw: 1 or 3. */
  type DrawCount = n: int | n == 1 || n == 3 witness 1

  /** The match: both boards plus the metadata they share. */
  datatype GameState = GameState(
    player1: PlayerState,
    player2: PlayerState,
    currentPlayer: PlayerId,
    startTime: Option<int>,
    endTime: Option<int>,
    winner: Option<PlayerId>,
    shuffleSeed: int,
    maxStockPasses: int,
    cardsPerDraw: DrawCount)

  /** What a match is started with. */
  datatype GameConfig = GameConfig(maxStockPasses: int, cardsPerDraw: DrawCount)
}
