/**
  The read-only queries: the win test, the game-over test and the scores.
 */
module Queries {
  import opened GameTypes
  import opened Piles
  import opened Rules

  /** `foundations.every(f => f.length === 13)`. */
  function AllComplete(fs: seq<seq<Card>>): (all: bool)
    ensures all <==> forall i | 0 <= i < |fs| :: |fs[i]| == 13
  {
    if |fs| == 0 then true else |fs[0]| == 13 && AllComplete(fs[1..])
  }

  /** `checkWinCondition`: every foundation of the acting player holds thirteen cards. */
  function CheckWinCondition(s: GameState): (win: bool)
    ensures win <==> forall i | 0 <= i < |Acting(s).foundations| :: |Acting(s).foundations[i]| == 13
  {
    AllComplete(Acting(s).foundations)
  }

  /** `isGameOver`: a winner has been recorded. */
  function IsGameOver(s: GameState): (over: bool)
    ensures over <==> s.winner != None
  {
    s.winner.Some?
  }

  /**
    The `reduce` of `getPlayerScore` over the first piles, as a left fold:
    the number of cards on them.
   */
  function SumLengths(fs: seq<seq<Card>>): (total: nat)
    ensures total == |Flatten(fs)|
  {
    if |fs| == 0 then 0 else SumLengths(fs[..|fs| - 1]) + |fs[|fs| - 1]|
  }

  /** `getPlayerScore`: how many cards the player has on the foundations. */
  function GetPlayerScore(p: PlayerState): (score: nat)
    ensures score == |Flatten(p.foundations)|
  {
    SumLengths(p.foundations)
  }

  datatype Progress = Progress(player1: nat, player2: nat)

  /** `getGameProgress`: both players' foundation card counts. */
  function GetGameProgress(s: GameState): (r: Progress)
    ensures r.player1 == |Flatten(s.player1.foundations)|
    ensures r.player2 == |Flatten(s.player2.foundations)|
  {
    Progress(GetPlayerScore(s.player1), GetPlayerScore(s.player2))
  }

  /** The score of four foundations is the sum of their sizes. */
  lemma ScoreOfFour(p: PlayerState)
    requires |p.foundations| == 4
    ensures GetPlayerScore(p) ==
      |p.foundations[0]| + |p.foundations[1]| + |p.foundations[2]| + |p.foundations[3]|
  {
    var fs := p.foundations;
    assert SumLengths(fs[..1]) == |fs[0]| by {
      assert fs[..1][..0] == [];
    }
    assert fs[..2][..1] == fs[..1];
    assert SumLengths(fs[..2]) == |fs[0]| + |fs[1]|;
    assert fs[..3][..2] == fs[..2];
    assert SumLengths(fs[..3]) == |fs[0]| + |fs[1]| + |fs[2]|;
    assert fs[..3] == fs[..|fs| - 1];
    assert SumLengths(fs) == |fs[0]| + |fs[1]| + |fs[2]| + |fs[3]|;
  }

  /**
    With four foundations of at most thirteen cards each, the acting player
    has won exactly when their score is 52.
   */
  lemma WinIffFullScore(s: GameState)
    requires |Acting(s).foundations| == 4
    requires forall i | 0 <= i < 4 :: |Acting(s).foundations[i]| <= 13
    ensures CheckWinCondition(s) <==> GetPlayerScore(Acting(s)) == 52
  {
    ScoreOfFour(Acting(s));
  }
}
