/**
  The turn controller of the game screen: the initial state and
  `handleCardClick`, which applies a move and then either does nothing,
  records a win, or passes the turn.
 */
module Controller {
  import opened GameTypes
  import opened Piles
  import opened Deck
  import opened Shuffle
  import opened Deal
  import opened Rules
  import opened Queries
  import opened Invariants

  /** The other player. */
  function Toggle(id: PlayerId): (other: PlayerId)
    ensures other != id
  {
    if id == 1 then 2 else 1
  }

  /**
    The state the game screen starts from: a match with three stock passes
    and one card per draw, started at `now`.
   */
  function InitialState(seed: int, rand: int -> UnitInterval, now: int): (s: GameState)
    ensures s.maxStockPasses == 3 && s.cardsPerDraw == 1
    ensures s.startTime == Some(now) && s.endTime == None && s.winner == None
    ensures s.currentPlayer == 1 && s.shuffleSeed == seed
    ensures s.player1 == s.player2 == InitializePlayerState(Shuffled(CreateDeck(), seed, rand))
  {
    InitializeGame(GameConfig(3, 1), seed, rand).(startTime := Some(now))
  }

  /**
    `handleCardClick`: applies the move with `makeMove` (stamped `moveTime`).
    If that returned the state itself, nothing happens. Otherwise, if the
    mover has now filled all foundations, the mover is recorded as winner and
    the match end as `clickTime`; if not, the turn passes to the other player.
   */
  function HandleCardClick(s: GameState, m: Move, moveTime: int, clickTime: int): (r: GameState)
    requires MoveFits(m, s)
    ensures !IsValidMove(m, s) ==> r == s
    ensures IsValidMove(m, s) ==>
      var next := MakeMove(m, s, moveTime);
      && r.player1 == next.player1 && r.player2 == next.player2
      && r.startTime == s.startTime && r.shuffleSeed == s.shuffleSeed
      && r.maxStockPasses == s.maxStockPasses && r.cardsPerDraw == s.cardsPerDraw
      && (CheckWinCondition(next) ==>
            r.winner == Some(s.currentPlayer) && r.endTime == Some(clickTime) && r.currentPlayer == s.currentPlayer)
      && (!CheckWinCondition(next) ==>
            r.winner == s.winner && r.endTime == s.endTime && r.currentPlayer != s.currentPlayer)
  {
    AppliedIffValid(m, s, moveTime);
    var next := MakeMove(m, s, moveTime);
    if next == s then s
    else if CheckWinCondition(next) then
      next.(endTime := Some(clickTime), winner := Some(next.currentPlayer))
    else
      next.(currentPlayer := Toggle(next.currentPlayer))
  }

  /** A winner is recorded exactly when an end time is. */
  predicate WinnerIffEnded(s: GameState)
  {
    s.winner.Some? <==> s.endTime.Some?
  }

  /**
    A board as the rules keep it: four foundations, seven tableau piles,
    each foundation a same-suit run from the Ace, and every card of the
    standard deck present exactly once.
   */
  predicate BoardInvariant(p: PlayerState)
  {
    && |p.foundations| == 4
    && |p.tableau| == 7
    && FoundationsOrdered(p)
    && PlayerKeys(p) == Keys(CreateDeck())
  }

  predicate GameInvariant(s: GameState)
  {
    WinnerIffEnded(s) && BoardInvariant(s.player1) && BoardInvariant(s.player2)
  }

  /** The start state satisfies the invariant. */
  lemma InitialStateInvariant(seed: int, rand: int -> UnitInterval, now: int)
    ensures GameInvariant(InitialState(seed, rand, now))
  {
    var s := InitialState(seed, rand, now);
    var g := InitializeGame(GameConfig(3, 1), seed, rand);
    InitialDealIsFullDeck(GameConfig(3, 1), seed, rand);
    assert s.player1 == g.player1 && s.player2 == g.player2;
    var p := s.player1;
    assert PlayerKeys(p) == Keys(CreateDeck());
    assert |p.foundations| == 4 && |p.tableau| == 7;
    EmptyFoundationsOrdered(p);
    assert BoardInvariant(p);
  }

  /** Any click leaves a recorded winner and a recorded end time in step. */
  lemma ClickKeepsWinnerIffEnded(s: GameState, m: Move, moveTime: int, clickTime: int)
    requires MoveFits(m, s) && WinnerIffEnded(s)
    ensures WinnerIffEnded(HandleCardClick(s, m, moveTime, clickTime))
  {
  }

  /** A faithful move keeps the acting board complete and ordered. */
  lemma MoveKeepsBoard(m: Move, s: GameState, now: int)
    requires MoveFits(m, s) && Faithful(m, s) && BoardInvariant(Acting(s))
    ensures BoardInvariant(Acting(MakeMove(m, s, now)))
  {
    MakeMoveConservesCards(m, s, now);
    MakeMoveKeepsFoundationsOrdered(m, s, now);
  }

  /**
    A click whose move carries the validated source cards keeps both boards
    complete and ordered, and the winner and end time in step.
   */
  lemma ClickPreservesInvariant(s: GameState, m: Move, moveTime: int, clickTime: int)
    requires MoveFits(m, s) && Faithful(m, s) && GameInvariant(s)
    ensures GameInvariant(HandleCardClick(s, m, moveTime, clickTime))
  {
    if IsValidMove(m, s) {
      var next := MakeMove(m, s, moveTime);
      var r := HandleCardClick(s, m, moveTime, clickTime);
      assert BoardInvariant(Acting(s)) && BoardInvariant(Waiting(s));
      MoveKeepsBoard(m, s, moveTime);
      assert BoardInvariant(next.player1) && BoardInvariant(next.player2);
      assert r.player1 == next.player1 && r.player2 == next.player2;
    }
  }

  /**
    Under the invariant a player's score is at most 52, and the win test
    holds exactly when the acting player's score is 52.
   */
  lemma WinMeansFullScore(s: GameState)
    requires GameInvariant(s)
    ensures GetPlayerScore(s.player1) <= 52 && GetPlayerScore(s.player2) <= 52
    ensures CheckWinCondition(s) <==> GetPlayerScore(Acting(s)) == 52
  {
    forall p | p == s.player1 || p == s.player2 ensures GetPlayerScore(p) <= 52 {
      assert BoardInvariant(p);
      forall i | 0 <= i < 4 ensures |p.foundations[i]| <= 13 {
        OrderedFoundationSize(p.foundations[i]);
      }
      ScoreOfFour(p);
    }
    var a := Acting(s);
    forall i | 0 <= i < 4 ensures |a.foundations[i]| <= 13 {
      OrderedFoundationSize(a.foundations[i]);
    }
    WinIffFullScore(s);
  }

  /**
    The click handler does not consult `isGameOver`: after a win has been
    recorded, a valid move is still applied.
   */
  lemma ClickAfterWinApplies(s: GameState, m: Move, moveTime: int, clickTime: int)
    requires MoveFits(m, s) && IsGameOver(s) && IsValidMove(m, s)
    ensures HandleCardClick(s, m, moveTime, clickTime) != s
  {
    var next := MakeMove(m, s, moveTime);
    var r := HandleCardClick(s, m, moveTime, clickTime);
    assert |Acting(next).moveLog| == |Acting(s).moveLog| + 1;
    assert r.player1 == next.player1 && r.player2 == next.player2;
  }

  /**
    A recorded win is not final: a later winning move by whoever is to move
    replaces the recorded winner and end time.
   */
  lemma LaterWinReplacesWinner(s: GameState, m: Move, moveTime: int, clickTime: int)
    requires MoveFits(m, s) && IsGameOver(s) && IsValidMove(m, s)
    requires CheckWinCondition(MakeMove(m, s, moveTime))
    ensures HandleCardClick(s, m, moveTime, clickTime).winner == Some(s.currentPlayer)
    ensures HandleCardClick(s, m, moveTime, clickTime).endTime == Some(clickTime)
  {
  }

  /** One click of a recorded session: the move and the two clock readings. */
  datatype Click = Click(move: Move, moveTime: int, clickTime: int)

  /**
    A session of clicks from `s`. None when some move names a pile that
    does not exist or carries no cards, which the engine does not handle.
   */
  function Play(s: GameState, clicks: seq<Click>): (r: Option<GameState>)
    ensures |clicks| == 0 ==> r == Some(s)
    decreases |clicks|
  {
    if |clicks| == 0 then Some(s)
    else
      var c := clicks[0];
      if !MoveFits(c.move, s) then None
      else Play(HandleCardClick(s, c.move, c.moveTime, c.clickTime), clicks[1..])
  }

  /** Every click of the session fits its state and carries the validated source cards. */
  predicate FaithfulPlay(s: GameState, clicks: seq<Click>)
    decreases |clicks|
  {
    if |clicks| == 0 then true
    else
      var c := clicks[0];
      && MoveFits(c.move, s)
      && Faithful(c.move, s)
      && FaithfulPlay(HandleCardClick(s, c.move, c.moveTime, c.clickTime), clicks[1..])
  }

  /** Along any session, a winner is recorded exactly when an end time is. */
  lemma {:induction false} PlayKeepsWinnerIffEnded(s: GameState, clicks: seq<Click>)
    requires WinnerIffEnded(s)
    ensures Play(s, clicks).Some? ==> WinnerIffEnded(Play(s, clicks).value)
    decreases |clicks|
  {
    if |clicks| > 0 {
      var c := clicks[0];
      if MoveFits(c.move, s) {
        ClickKeepsWinnerIffEnded(s, c.move, c.moveTime, c.clickTime);
        PlayKeepsWinnerIffEnded(HandleCardClick(s, c.move, c.moveTime, c.clickTime), clicks[1..]);
      }
    }
  }

  /** Along any faithful session the invariant holds at the end. */
  lemma {:induction false} PlayKeepsInvariant(s: GameState, clicks: seq<Click>)
    requires GameInvariant(s) && FaithfulPlay(s, clicks)
    ensures Play(s, clicks).Some? && GameInvariant(Play(s, clicks).value)
    decreases |clicks|
  {
    if |clicks| > 0 {
      var c := clicks[0];
      ClickPreservesInvariant(s, c.move, c.moveTime, c.clickTime);
      PlayKeepsInvariant(HandleCardClick(s, c.move, c.moveTime, c.clickTime), clicks[1..]);
    }
  }

  /**
    A whole match from the start state: whatever the shuffle, a faithful
    session ends with both boards complete and ordered, and a winner exactly
    when an end time is recorded.
   */
  lemma MatchKeepsInvariant(seed: int, rand: int -> UnitInterval, now: int, clicks: seq<Click>)
    requires FaithfulPlay(InitialState(seed, rand, now), clicks)
    ensures Play(InitialState(seed, rand, now), clicks).Some?
    ensures GameInvariant(Play(InitialState(seed, rand, now), clicks).value)
  {
    InitialStateInvariant(seed, rand, now);
    PlayKeepsInvariant(InitialState(seed, rand, now), clicks);
  }

  /**
    The move the stock pile's click handler builds: the stock's top card to
    the waste.
   */
  function StockDrawMove(p: PlayerState, now: int): (m: Move)
    requires |p.stock| > 0
    ensures m.from.kind == Stock && m.to.kind == Waste && m.cards == [p.stock[|p.stock| - 1]]
  {
    Move(Stock, Location(Stock, 0), Location(Waste, 0), [Top(p.stock)], now)
  }

  /** Clicking the stock changes nothing: the validator rejects every waste destination. */
  lemma StockDrawIgnored(s: GameState, now: int, moveTime: int, clickTime: int)
    requires |Acting(s).stock| > 0
    ensures HandleCardClick(s, StockDrawMove(Acting(s), now), moveTime, clickTime) == s
  {
  }
}
