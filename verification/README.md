# Two-hand competitive solitaire: a Dafny model of the rules engine

This project models the rules engine of a two-player Klondike-style
solitaire race. Both players get their own board: a stock, a waste, four
foundations and seven tableau piles. They take turns making one move each.
The first player to fill all four foundations is recorded as the winner.

The model covers:

- the card, move, board and match types (`types.dfy`, module `GameTypes`);
- the deck builder and the seeded Fisher–Yates shuffle (`deck.dfy`, `shuffle.dfy`);
- the dealer (`deal.dfy`);
- the move validator `isValidMove` and the move applier `makeMove` (`rules.dfy`);
- the queries: the win test, the game-over test and the scores (`queries.dfy`);
- the card-conservation and foundation-order invariants (`invariants.dfy`);
- the turn controller of the game screen: its initial state and `handleCardClick` (`controller.dfy`).

Everything is written as immutable datatypes and pure functions. The one
exception is the shuffle, which is also a loop method proved equal to its
functional definition.

How the model treats the engine's inputs:

- **Piles.** Piles are sequences whose top card is the last element.
- **JavaScript array operations.** `pop`, `slice(a, b)`, `slice(-n)` and `slice(0, -n)` are modelled with their exact JavaScript behaviour, including `n = 0` and `n` beyond the pile length (`Piles`).
- **Card identity.** The identity of a card is its (suit, rank) pair, its `CardKey`. Turning a card over changes `faceUp` but keeps the identity, so card conservation is stated on multisets of keys.
- **Random generator and clock.** Neither is modelled. The shuffle takes `rand: int -> UnitInterval`, where `rand(n)` is the generator's value in [0, 1) when its counter is `n`; the counter starts at the seed and advances once per draw. The seed and every wall-clock reading (`now`, `moveTime`, `clickTime`) are plain parameters.

Behaviour of the code that the model reproduces:

- **Waste destinations are always rejected.** The validator refuses every waste destination. So the stock-draw move that the stock pile's click handler builds (stock top card → waste) is always rejected, and the model proves the click changes nothing (`Controller.StockDrawIgnored`). Stock cards can only leave the stock directly onto a foundation or a tableau pile.
- **When `stockPasses` grows.** It goes up only when a valid stock move takes the last stock card (`Rules.StockPassCounting`). There is no recycling of the waste into the stock.
- **The applier pushes the caller's cards.** The destination gets the caller's `move.cards`, not the cards the validator took from the source (`Invariants.CallerCardsArePushed` gives a concrete case). Card conservation and foundation order therefore hold for moves whose `cards` are the validated source cards (`Invariants.Faithful`). The game screen's moves are built that way.
- **Both players get the same deal.** The deck is shuffled once and the same shuffled order is dealt to both players, so the two boards start identical (`Deal.InitializeGame`). The state's `shuffleSeed` field name suggests two independent shuffles of one seed; the model follows the code.
- **Clicks after a win still count.** The click handler does not consult `isGameOver`, so a valid move after a win is still applied (`Controller.ClickAfterWinApplies`). The turn still passes after a non-winning move, and a later win by the player to move replaces the recorded winner and end time (`Controller.LaterWinReplacesWinner`).
- **The winner field.** `winner` is a nullable number in the source. Here it is `Option<PlayerId>`, because the controller only ever stores the current player in it.

## Model

| member | source | states |
|---|---|---|
| Deck.RankIndex | src/utils/gameLogic.ts:12-26 | `RANKS.indexOf(r)` always finds the rank: the position is in range and holds `r` |
| Deck.SuitIndex | src/utils/gameLogic.ts:11 | every suit is listed in `SUITS`, at the returned position |
| Deck.OrdersAreEnumerations | src/types/game.ts:1-2 | there are four suits and thirteen ranks, each listed once, and the index functions invert the lists |
| Deck.CreateDeck | src/utils/gameLogic.ts:46-54 | the deck has 52 cards; card `k` is the face-down card of suit `SUITS[k / 13]` and rank `RANKS[k % 13]` (suit-major, rank-minor) |
| Deck.DeckDistinct | src/utils/gameLogic.ts:46-54 | every card of the deck is face-down and no two cards share suit and rank |
| Deck.DeckComplete | src/utils/gameLogic.ts:46-54 | every suit/rank pair is in the deck, at position 13·suit + rank |
| Deck.DeckKeysEachOnce | src/utils/gameLogic.ts:46-54 | the deck holds every card identity exactly once |
| Shuffle.Scale | src/utils/gameLogic.ts:39 | `random() * (i + 1)` lies in [0, i + 1) |
| Shuffle.SwapIndex | src/utils/gameLogic.ts:39 | `Math.floor(random() * (i + 1))` is a position `j <= i`, and it is the floor: `j <= r(i+1) < j + 1` |
| Shuffle.Swap | src/utils/gameLogic.ts:40 | positions `i` and `j` exchange their cards and every other position is unchanged |
| Shuffle.ShuffleFromPermutes | src/utils/gameLogic.ts:38-41 | the remaining loop iterations only rearrange the cards (same multiset) |
| Shuffle.Shuffled | src/utils/gameLogic.ts:29-44 | the shuffled deck has the input's length and exactly its cards, with multiplicities |
| Shuffle.SeededShuffle | src/utils/gameLogic.ts:29-44 | the loop on a copy, from the last position down to 1, returns a permutation of the input, and the same one for the same seed and generator |
| Piles.Slice | src/utils/gameLogic.ts:62 | `slice(from, to)` clamps both bounds to the length; result position `k` is input position `from + k` |
| Piles.DropLastTakeLast | src/utils/gameLogic.ts:201-204 | for `n >= 1`, the part kept below (`slice(0, -n)`) followed by the run `slice(-n)` is the whole pile |
| Piles.RevealTop | src/utils/gameLogic.ts:205-209 | the pile keeps its cards in place and only the top card ends face-up |
| Piles.KeysRevealTop | src/utils/gameLogic.ts:205-209 | turning the top card over keeps the pile's identities, in order |
| Deal.DealtPile | src/utils/gameLogic.ts:68-69 | tableau pile `i` holds deck cards `24 + 4i ..` (at most four), in order, and only its last card is turned face-up |
| Deal.DealTableau | src/utils/gameLogic.ts:65-71 | the dealer makes seven tableau piles |
| Deal.InitializePlayerState | src/utils/gameLogic.ts:61-82 | stock = first 24 cards; tableau pile `i` = cards `24+4i ..` with only its last card turned face-up; waste and four foundations empty; timer 0, empty log, no stock passes |
| Deal.ShuffledDeckFaceDown | src/utils/gameLogic.ts:46-59 | every card of the shuffled deck is face-down, so only the card each tableau pile turns up shows |
| Deal.InitializeGame | src/utils/gameLogic.ts:56-95 | both players get the same board, dealt from the once-shuffled deck; player 1 moves first; no start, end or winner; the seed and the configuration are recorded |
| Deal.TableauKeys | src/utils/gameLogic.ts:65-71 | the seven dealt piles together hold the identities of deck cards 24 to 51 |
| Deal.DealConservesCards | src/utils/gameLogic.ts:61-82 | dealing a 52-card deck neither loses nor duplicates a card: the board holds exactly the deck's identities |
| Deal.InitialDealIsFullDeck | src/utils/gameLogic.ts:56-95 | each player's initial board holds every card identity of the standard deck exactly once, whatever the shuffle |
| Rules.WithActing | src/utils/gameLogic.ts:176-177 | the edit replaces the acting player's board and nothing else |
| Rules.SourceCards | src/utils/gameLogic.ts:107-132 | no source cards exactly when the source pile is empty or the tableau run has a face-down card; otherwise the top card, or the tableau's last cards, as a suffix of the pile |
| Rules.IsValidMove | src/utils/gameLogic.ts:97-170 | rejected when the stock passes are used up, the source is empty, the tableau run has a face-down card, or the destination is the waste; an accepted foundation move takes exactly one card |
| Rules.ValidIffLegal | src/utils/gameLogic.ts:97-170 | the validator accepts exactly the moves satisfying the rules stated position by position: the foundation takes an Ace or the next rank of its suit, the tableau a King or the next lower rank in the other colour |
| Rules.RemoveSource | src/utils/gameLogic.ts:186-211 | taking the source cards off keeps the number of foundation and tableau piles, the timer and the log |
| Rules.AddTarget | src/utils/gameLogic.ts:213-224 | pushing onto the destination leaves the stock, the stock passes, the timer, the log and the pile counts alone |
| Rules.MakeMove | src/utils/gameLogic.ts:172-227 | an invalid move returns the state itself; a valid one appends the timestamped move to the mover's log, counts a stock pass only when it takes the last stock card, and changes nothing outside the mover's board |
| Rules.AppliedIffValid | src/utils/gameLogic.ts:172-184 | the result differs from the input exactly when the move is valid, which the controller's `!==` test relies on |
| Rules.MoveEdits | src/utils/gameLogic.ts:186-224 | pile by pile: the source loses its top card, or its last `|cards|` cards with the new top turned up; the destination gains `cards[0]` (foundation) or all of `cards` (tableau); every other pile is unchanged |
| Rules.StockPassCounting | src/utils/gameLogic.ts:188-192 | the stock-pass count grows exactly when a valid stock move leaves the stock empty |
| Rules.CardsPerDrawUnused | src/utils/gameLogic.ts:93 | `cardsPerDraw` is only stored: changing it changes neither validation nor the move's effect |
| Queries.AllComplete | src/utils/gameLogic.ts:232 | `every(f => f.length === 13)` holds exactly when every pile has thirteen cards |
| Queries.CheckWinCondition | src/utils/gameLogic.ts:229-233 | the win test holds exactly when every foundation of the acting player holds thirteen cards |
| Queries.IsGameOver | src/utils/gameLogic.ts:235-237 | the match is over exactly when a winner is recorded |
| Queries.SumLengths | src/utils/gameLogic.ts:240-243 | the `reduce` of foundation lengths is the number of cards on the foundations |
| Queries.GetPlayerScore | src/utils/gameLogic.ts:239-244 | a player's score is the number of cards on their foundations |
| Queries.GetGameProgress | src/utils/gameLogic.ts:246-253 | the progress pair is the two players' foundation card counts |
| Queries.ScoreOfFour | src/utils/gameLogic.ts:239-244 | with four foundations, the score is the sum of their four sizes |
| Queries.WinIffFullScore | src/utils/gameLogic.ts:229-244 | with four foundations of at most thirteen cards, the win test holds exactly when the score is 52 |
| Invariants.CallerCardsArePushed | src/utils/gameLogic.ts:213-224 | a move carrying cards other than the validated ones is accepted, and puts the caller's card on the foundation while the validated card leaves the board |
| Invariants.RemoveSourceKeys | src/utils/gameLogic.ts:186-211 | taking the source cards off removes exactly their identities from the board |
| Invariants.AddTargetKeys | src/utils/gameLogic.ts:213-224 | pushing cards onto a pile adds exactly their identities |
| Invariants.MakeMoveConservesCards | src/utils/gameLogic.ts:172-227 | a move carrying the validated cards leaves the mover's board with the same card identities |
| Invariants.EmptyFoundationsOrdered | src/utils/gameLogic.ts:64 | four empty foundations are ordered |
| Invariants.OrderedFoundationSize | src/utils/gameLogic.ts:134-149 | a foundation built by the rules holds at most thirteen cards |
| Invariants.AcceptedKeepsOrdered | src/utils/gameLogic.ts:134-149 | a foundation that accepts a card stays a same-suit run from the Ace |
| Invariants.NoFoundationToItself | src/utils/gameLogic.ts:118-149 | a card cannot be moved from a foundation onto the same foundation |
| Invariants.MakeMoveKeepsFoundationsOrdered | src/utils/gameLogic.ts:172-227 | a valid move carrying the validated cards keeps every foundation a same-suit run A, 2, … in order |
| Controller.Toggle | src/components/Game.tsx:136 | the turn passes to the other player |
| Controller.InitialState | src/components/Game.tsx:104-111 | the screen starts from the dealt match with three stock passes, one card per draw, a start time, player 1 to move and no winner |
| Controller.HandleCardClick | src/components/Game.tsx:124-140 | an invalid move changes nothing; a winning move records the mover as winner and sets the end time, without passing the turn; any other applied move passes the turn and leaves winner and end time alone |
| Controller.ClickAfterWinApplies | src/components/Game.tsx:124-140 | after a win is recorded, a valid move is still applied |
| Controller.LaterWinReplacesWinner | src/components/Game.tsx:127-132 | with a winner already recorded, a winning valid move records the player to move as winner and a new end time |
| Controller.InitialStateInvariant | src/components/Game.tsx:104-111 | the start state has full, ordered boards and no winner or end time |
| Controller.ClickKeepsWinnerIffEnded | src/components/Game.tsx:127-132 | a click keeps a winner recorded exactly when an end time is |
| Controller.MoveKeepsBoard | src/utils/gameLogic.ts:172-227 | a move carrying the validated cards keeps the mover's board complete and ordered |
| Controller.ClickPreservesInvariant | src/components/Game.tsx:124-140 | a click carrying the validated cards keeps both boards complete and ordered, and winner and end time in step |
| Controller.WinMeansFullScore | src/utils/gameLogic.ts:229-244 | on boards kept by the rules, scores are at most 52 and the win test holds exactly when the mover's score is 52 |
| Controller.PlayKeepsWinnerIffEnded | src/components/Game.tsx:127-132 | along any session of clicks, a winner is recorded exactly when an end time is |
| Controller.PlayKeepsInvariant | src/components/Game.tsx:124-140 | along a session of clicks carrying the validated cards, both boards stay complete and ordered |
| Controller.MatchKeepsInvariant | src/components/Game.tsx:104-140 | from the start state, whatever the shuffle, every such session ends with complete, ordered boards and winner and end time in step |
| Controller.StockDrawMove | src/components/PlayerBoard.tsx:156-165 | the stock click builds a move of the stock's top card to the waste |
| Controller.StockDrawIgnored | src/components/PlayerBoard.tsx:158-164 | that move is rejected, so clicking the stock changes nothing |

## Left out

- **Random generator.** The generator inside `seededShuffle` (`Math.sin` on a counter, floating point) is not modelled; the shuffle takes its outputs as the function `rand`. Seed selection with `Math.random` is not modelled either; the seed is a parameter, and its range [0, 1000000) is not constrained.
- **Timers.** `updatePlayerTimer` and `getPlayerTime` are not modelled. They read the wall clock and work in float seconds. Their shallow copy also writes through to the input state's player object, which value semantics cannot express.
- **Timestamps.** Move timestamps and the click's end time are integer parameters, not clock readings.
- **JSON clone and aliasing.** The deep clone inside `makeMove`, and the card objects shared between the two initial boards, are subsumed by value semantics.
- **Bad indices and empty moves.** A foundation or tableau index outside the board can make the source throw, so the model requires indices in range. This also excludes the out-of-range moves the source rejects before it reads the index: a stock move once the passes are used up, an empty stock or waste source, and a run of several cards sent to a foundation. A move with no cards is also excluded (`Rules.MoveFits`): the source would then push `undefined` onto a foundation, or delete a whole tableau pile through `slice(0, -0)`. `Controller.Play` returns None for a session reaching such a click.
- **Dealing short decks.** Dealing requires at least 49 cards, or the source turns over a card that does not exist. The game only ever deals 52.
- **Face-down tableau prefix.** There is no invariant that face-down tableau cards lie below face-up ones, because the code does not keep one: a stock card moved onto the tableau stays face-down.
- **Presentation.** The rendering, selection and drag logic of the player board, the timer polling, time formatting and progress percentages of the game screen are not modelled.
- Invariants.MakeMoveConservesCards: card conservation and foundation order are proved only for moves whose `cards` are the validated source cards, because the applier trusts its caller for them (see `Invariants.CallerCardsArePushed`).
- Shuffle.SwapIndex: the product `random() * (i + 1)` is taken exactly, not rounded to a double before `Math.floor`, so where that rounding reaches an integer (for instance a draw just below 1/3 with `i = 2`) the drawn position can differ by one; the shuffle is still a permutation and still determined by the seed and the generator.
- Rules.RemoveSource: its own contract states only what the removal keeps; what it changes is stated pile by pile in `Rules.MoveEdits` and through identities in `Invariants.RemoveSourceKeys`.
- Rules.AddTarget: its own contract states only what the push keeps; the pile it extends, and by which cards, is stated in `Rules.MoveEdits` and through identities in `Invariants.AddTargetKeys`.
- Controller.Play: its contract states only the empty session; its properties are the session lemmas `Controller.PlayKeepsWinnerIffEnded` and `Controller.PlayKeepsInvariant`.
