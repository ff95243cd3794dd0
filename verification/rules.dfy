/**
  The move validator and the move applier: `isValidMove` and `makeMove`.
  Both act on the board of the player whose turn it is.
 */
module Rules {
  import opened GameTypes
  import opened Piles
  import opened Deck

  /** The board of the player whose turn it is. */
  function Acting(s: GameState): PlayerState
  {
    if s.currentPlayer == 1 then s.player1 else s.player2
  }

  /** The board of the other player. */
  function Waiting(s: GameState): PlayerState
  {
    if s.currentPlayer == 1 then s.player2 else s.player1
  }

  /** `s` with the acting player's board replaced by `p`. */
  function WithActing(s: GameState, p: PlayerState): (r: GameState)
    ensures Acting(r) == p && Waiting(r) == Waiting(s)
    ensures r.(player1 := s.player1, player2 := s.player2) == s
  {
    if s.currentPlayer == 1 then s.(player1 := p) else s.(player2 := p)
  }

  /**
    A pile reference the engine can follow on board `p`: foundation and
    tableau indices must name an existing pile, or `isValidMove` reads a
    property of `undefined` and throws.
   */
  predicate IndexInRange(l: Location, p: PlayerState)
  {
    match l.kind
    case Foundation => 0 <= l.index < |p.foundations|
    case Tableau => 0 <= l.index < |p.tableau|
    case _ => true
  }

  predicate IndicesInRange(m: Move, p: PlayerState)
  {
    IndexInRange(m.from, p) && IndexInRange(m.to, p)
  }

  /** The pile a location refers to. */
  function PileAt(l: Location, p: PlayerState): seq<Card>
    requires IndexInRange(l, p)
  {
    match l.kind
    case Stock => p.stock
    case Waste => p.waste
    case Foundation => p.foundations[l.index]
    case Tableau => p.tableau[l.index]
  }

  predicate AllFaceUp(cs: seq<Card>)
  {
    forall k | 0 <= k < |cs| :: cs[k].faceUp
  }

  /**
    How many cards `pile.slice(-n)` takes from a non-empty pile: `n` when it
    fits, otherwise (n = 0 or n beyond the pile) the whole pile.
   */
  function RunLength(n: nat, pileSize: nat): nat
  {
    if 1 <= n <= pileSize then n else pileSize
  }

  lemma TakeLastIsRun(pile: seq<Card>, n: nat)
    ensures TakeLast(pile, n) == pile[|pile| - RunLength(n, |pile|)..]
  {
  }

  /**
    The cards the validator takes from the source: the top card of the
    stock, the waste or a foundation, or the last `|m.cards|` cards of a
    tableau pile. None when the source pile is empty, or when the tableau
    run holds a face-down card.
   */
  function SourceCards(m: Move, p: PlayerState): (r: Option<seq<Card>>)
    requires IndexInRange(m.from, p)
    ensures r.None? <==>
      |PileAt(m.from, p)| == 0 ||
      (m.from.kind == Tableau && !AllFaceUp(TakeLast(PileAt(m.from, p), |m.cards|)))
    ensures r.Some? ==>
      var pile := PileAt(m.from, p);
      var k := if m.from.kind == Tableau then RunLength(|m.cards|, |pile|) else 1;
      1 <= k <= |pile| && |r.value| == k && r.value == pile[|pile| - k..]
  {
    match m.from.kind
    case Stock =>
      if |p.stock| == 0 then None else Some([Top(p.stock)])
    case Waste =>
      if |p.waste| == 0 then None else Some([Top(p.waste)])
    case Foundation =>
      var f := p.foundations[m.from.index];
      if |f| == 0 then None else Some([Top(f)])
    case Tableau =>
      var pile := p.tableau[m.from.index];
      if |pile| == 0 then None
      else
        var run := TakeLast(pile, |m.cards|);
        if exists k | 0 <= k < |run| :: !run[k].faceUp then None else Some(run)
  }

  /** A foundation takes an Ace when empty, else the next rank of its top card's suit. */
  predicate FoundationAccepts(f: seq<Card>, c: Card)
  {
    if |f| == 0 then c.rank == Ace
    else c.suit == Top(f).suit && RankIndex(c.rank) == RankIndex(Top(f).rank) + 1
  }

  /** A tableau pile takes a King when empty, else the rank below its top card in the other colour. */
  predicate TableauAccepts(pile: seq<Card>, c: Card)
  {
    if |pile| == 0 then c.rank == King
    else IsRed(c.suit) != IsRed(Top(pile).suit) && RankIndex(c.rank) == RankIndex(Top(pile).rank) - 1
  }

  /** The stock has been emptied as often as the match allows. */
  predicate StockExhausted(m: Move, s: GameState)
  {
    m.from.kind == Stock && Acting(s).stockPasses >= s.maxStockPasses
  }

  /**
    `isValidMove`: the stock-pass limit first, then the source, then the
    destination rule. A waste destination is never valid.
   */
  function IsValidMove(m: Move, s: GameState): (ok: bool)
    requires IndicesInRange(m, Acting(s))
    ensures StockExhausted(m, s) ==> !ok
    ensures |PileAt(m.from, Acting(s))| == 0 ==> !ok
    ensures m.from.kind == Tableau && !AllFaceUp(TakeLast(PileAt(m.from, Acting(s)), |m.cards|)) ==> !ok
    ensures m.to.kind == Waste ==> !ok
    ensures ok && m.to.kind == Foundation ==> |SourceCards(m, Acting(s)).value| == 1
  {
    var p := Acting(s);
    if StockExhausted(m, s) then false
    else
      match SourceCards(m, p)
      case None => false
      case Some(src) =>
        if m.to.kind == Foundation then
          |src| == 1 && FoundationAccepts(p.foundations[m.to.index], src[0])
        else if m.to.kind == Tableau then
          TableauAccepts(p.tableau[m.to.index], src[0])
        else
          false
  }

  /**
    The rules of a legal move written out position by position on the
    source pile: the stock is not exhausted, the source pile is not empty,
    the `k` cards taken (one, or the tableau run) are face-up when they come
    from the tableau, and the lowest of them, `pile[|pile| - k]`, fits the
    destination.
   */
  predicate Legal(m: Move, s: GameState)
    requires IndicesInRange(m, Acting(s))
  {
    var p := Acting(s);
    var pile := PileAt(m.from, p);
    var k := if m.from.kind == Tableau then RunLength(|m.cards|, |pile|) else 1;
    && !StockExhausted(m, s)
    && |pile| > 0
    && (m.from.kind == Tableau ==> forall i | |pile| - k <= i < |pile| :: pile[i].faceUp)
    && ((m.to.kind == Foundation && k == 1 && FoundationAccepts(p.foundations[m.to.index], pile[|pile| - 1]))
        || (m.to.kind == Tableau && TableauAccepts(p.tableau[m.to.index], pile[|pile| - k])))
  }

  /** The validator accepts exactly the legal moves. */
  lemma ValidIffLegal(m: Move, s: GameState)
    requires IndicesInRange(m, Acting(s))
    ensures IsValidMove(m, s) <==> Legal(m, s)
  {
    var p := Acting(s);
    var pile := PileAt(m.from, p);
    if |pile| > 0 && m.from.kind == Tableau {
      var k := RunLength(|m.cards|, |pile|);
      var run := TakeLast(pile, |m.cards|);
      TakeLastIsRun(pile, |m.cards|);
      assert AllFaceUp(run) <==> forall i | |pile| - k <= i < |pile| :: pile[i].faceUp by {
        if AllFaceUp(run) {
          forall i | |pile| - k <= i < |pile| ensures pile[i].faceUp {
            assert run[i - (|pile| - k)] == pile[i];
          }
        }
        if forall i | |pile| - k <= i < |pile| :: pile[i].faceUp {
          forall j | 0 <= j < |run| ensures run[j].faceUp {
            assert run[j] == pile[|pile| - k + j];
          }
        }
      }
    }
  }

  /**
    The stock pop, waste pop, foundation pop, or tableau truncation below the
    last `n` cards followed by turning the new top card face-up. Emptying the
    stock counts one stock pass.
   */
  function RemoveSource(p: PlayerState, from: Location, n: nat): (r: PlayerState)
    requires IndexInRange(from, p)
    ensures |r.foundations| == |p.foundations| && |r.tableau| == |p.tableau|
    ensures r.timer == p.timer && r.moveLog == p.moveLog
  {
    match from.kind
    case Stock =>
      var rest := Pop(p.stock);
      p.(stock := rest, stockPasses := if |rest| == 0 then p.stockPasses + 1 else p.stockPasses)
    case Waste =>
      p.(waste := Pop(p.waste))
    case Foundation =>
      p.(foundations := p.foundations[from.index := Pop(p.foundations[from.index])])
    case Tableau =>
      p.(tableau := p.tableau[from.index := RevealTop(DropLast(p.tableau[from.index], n))])
  }

  /**
    Pushes onto the destination: the first of `cards` onto a foundation or
    the waste, all of them onto a tableau pile, face sides as given.
   */
  function AddTarget(p: PlayerState, to: Target, cards: seq<Card>): (r: PlayerState)
    requires IndexInRange(to, p) && |cards| >= 1
    ensures |r.foundations| == |p.foundations| && |r.tableau| == |p.tableau|
    ensures r.stock == p.stock && r.stockPasses == p.stockPasses
    ensures r.timer == p.timer && r.moveLog == p.moveLog
  {
    if to.kind == Foundation then
      p.(foundations := p.foundations[to.index := p.foundations[to.index] + [cards[0]]])
    else if to.kind == Tableau then
      p.(tableau := p.tableau[to.index := p.tableau[to.index] + cards])
    else
      p.(waste := p.waste + [cards[0]])
  }

  /** What `makeMove` needs beyond the source's own checks: existing piles and at least one card. */
  predicate MoveFits(m: Move, s: GameState)
  {
    IndicesInRange(m, Acting(s)) && |m.cards| >= 1
  }

  /**
    `makeMove`: an invalid move returns the state itself. A valid one logs the
    move with timestamp `now`, takes the cards off the source, pushes
    `m.cards` onto the destination, and touches nothing but the acting board.
   */
  function MakeMove(m: Move, s: GameState, now: int): (r: GameState)
    requires MoveFits(m, s)
    ensures !IsValidMove(m, s) ==> r == s
    ensures r.(player1 := s.player1, player2 := s.player2) == s
    ensures Waiting(r) == Waiting(s)
    ensures Acting(r).moveLog == Acting(s).moveLog + (if IsValidMove(m, s) then [m.(timestamp := now)] else [])
    ensures Acting(r).stockPasses ==
      Acting(s).stockPasses + (if IsValidMove(m, s) && m.from.kind == Stock && |Acting(s).stock| == 1 then 1 else 0)
    ensures Acting(r).timer == Acting(s).timer
    ensures |Acting(r).foundations| == |Acting(s).foundations| && |Acting(r).tableau| == |Acting(s).tableau|
  {
    if !IsValidMove(m, s) then s
    else
      var p := Acting(s);
      var logged := p.(moveLog := p.moveLog + [m.(timestamp := now)]);
      var removed := RemoveSource(logged, m.from, |m.cards|);
      WithActing(s, AddTarget(removed, m.to, m.cards))
  }

  /** A move changes the state exactly when it is valid; the controller's `!==` test relies on this. */
  lemma AppliedIffValid(m: Move, s: GameState, now: int)
    requires MoveFits(m, s)
    ensures MakeMove(m, s, now) != s <==> IsValidMove(m, s)
  {
    if IsValidMove(m, s) {
      assert |Acting(MakeMove(m, s, now)).moveLog| == |Acting(s).moveLog| + 1;
    }
  }

  /**
    The pile edits of a valid move, pile by pile: the source loses its top
    card (or its last `|m.cards|` cards, with the new top turned up), the
    destination gains `m.cards[0]` (foundation) or `m.cards` (tableau), and
    every other pile is left as it was.
   */
  lemma MoveEdits(m: Move, s: GameState, now: int)
    requires MoveFits(m, s) && IsValidMove(m, s)
    ensures var p, r := Acting(s), Acting(MakeMove(m, s, now));
      && r.stock == (if m.from.kind == Stock then p.stock[..|p.stock| - 1] else p.stock)
      && r.waste == (if m.from.kind == Waste then p.waste[..|p.waste| - 1] else p.waste)
      && (forall i | 0 <= i < |p.foundations| ::
            var f := if m.from.kind == Foundation && m.from.index == i
                     then p.foundations[i][..|p.foundations[i]| - 1] else p.foundations[i];
            r.foundations[i] == if m.to.kind == Foundation && m.to.index == i then f + [m.cards[0]] else f)
      && (forall i | 0 <= i < |p.tableau| ::
            var t := if m.from.kind == Tableau && m.from.index == i
                     then RevealTop(DropLast(p.tableau[i], |m.cards|)) else p.tableau[i];
            r.tableau[i] == if m.to.kind == Tableau && m.to.index == i then t + m.cards else t)
  {
  }

  /**
    The stock-pass count goes up only when a stock card leaves the board's
    last stock position; a stock move that leaves cards behind, and every
    other move, keeps it.
   */
  lemma StockPassCounting(m: Move, s: GameState, now: int)
    requires MoveFits(m, s)
    ensures Acting(MakeMove(m, s, now)).stockPasses > Acting(s).stockPasses <==>
      IsValidMove(m, s) && m.from.kind == Stock && |Acting(MakeMove(m, s, now)).stock| == 0
  {
    if IsValidMove(m, s) && m.from.kind == Stock {
      MoveEdits(m, s, now);
    }
  }

  /** The configured number of cards per draw plays no part in validating or applying a move. */
  lemma CardsPerDrawUnused(m: Move, s: GameState, d: DrawCount, now: int)
    requires MoveFits(m, s)
    ensures IsValidMove(m, s.(cardsPerDraw := d)) == IsValidMove(m, s)
    ensures MakeMove(m, s.(cardsPerDraw := d), now) == MakeMove(m, s, now).(cardsPerDraw := d)
  {
  }
}
