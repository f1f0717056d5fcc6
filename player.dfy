/**
 * A player: its colour, the history of moves it has placed and the move
 * counter kept beside that history. Human players also keep a ranking;
 * computer players carry their difficulty level instead.
 */
module Players {
  import opened Pieces

  datatype PlayerKind = Human | Computer(level: Level)

  class Player {
    const kind: PlayerKind
    var color: Stone
    /** Every move this player has placed and not undone, oldest first. */
    var moves: seq<Move>
    var numOfMoves: int
    /** Accumulated score; only a human player's ranking is ever changed. */
    var ranking: int

    /** The move counter always equals the length of the move history. */
    ghost predicate Valid()
      reads this
    {
      numOfMoves == |moves|
    }

    constructor (kind: PlayerKind, color: Stone)
      ensures Valid() && this.kind == kind && this.color == color
      ensures moves == [] && numOfMoves == 0 && ranking == 0
    {
      this.kind := kind;
      this.color := color;
      moves := [];
      numOfMoves := 0;
      ranking := 0;
    }

    method IncrementMoveCount()
      modifies this
      ensures numOfMoves == old(numOfMoves) + 1
      ensures moves == old(moves) && ranking == old(ranking) && color == old(color)
    {
      numOfMoves := numOfMoves + 1;
    }

    method DecrementMoveCount()
      modifies this
      ensures numOfMoves == old(numOfMoves) - 1
      ensures moves == old(moves) && ranking == old(ranking) && color == old(color)
    {
      numOfMoves := numOfMoves - 1;
    }

    /** Adds a game score to a human player's ranking. */
    method AddRanking(score: int)
      requires kind.Human?
      modifies this
      ensures ranking == old(ranking) + score
      ensures moves == old(moves) && numOfMoves == old(numOfMoves) && color == old(color)
    {
      ranking := ranking + score;
    }
  }
}
