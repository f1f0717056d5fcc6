/**
 * The value types shared by the rules engine and the heuristic engine:
 * stones, game results, difficulty levels, moves, coordinates and the
 * error outcomes that replace the game's exceptions.
 */
module Pieces {

  /** The state of one board cell; Black always moves first. */
  datatype Stone = Empty | Black | White

  /** The outcome of a placement: play on, a winner, or a draw. */
  datatype Result = Continue | BlackWin | WhiteWin | Draw

  /** Difficulty of the computer opponent. */
  datatype Level = Easy | Medium | Hard

  /** A placement: row and column indices (0-based) and the stone placed. */
  datatype Move = Move(row: int, col: int, stone: Stone)

  /** A (row, column) pair, as the heuristic passes them around. */
  type Coord = (int, int)

  /** The coordinate the heuristic returns when it finds no candidate. */
  const NoCoord: Coord := (-1, -1)

  /** Why a placement was refused (one constructor per check that can fail). */
  datatype PlacementError =
    | BadLength          // coordinate text is not 2 or 3 characters long
    | ColumnNotOnBoard   // first character is not one of the board's column letters
    | RowNotNumeric      // the rest of the text is not an integer
    | RowOutOfBoard      // row index outside [0, N)
    | ColOutOfBoard      // column index outside [0, N)
    | Occupied           // the cell already holds a stone

  /** Why an undo was refused. */
  datatype UndoError = UndoNotAllowed

  /** A value or the error that replaced an exception. */
  datatype Outcome<+T, +E> = Ok(value: T) | Fail(error: E)

  datatype Option<+T> = None | Some(value: T)

  /** Is (r, c) a cell of an n-by-n board? */
  predicate InBoard(n: int, r: int, c: int)
  {
    0 <= r < n && 0 <= c < n
  }

  /** Is (r, c) a cell of the board held in g? */
  predicate InGrid<T>(g: array2<T>, r: int, c: int)
  {
    0 <= r < g.Length0 && 0 <= c < g.Length1
  }

  /** g is an n-by-n grid. */
  predicate Square<T>(g: array2<T>, n: int)
  {
    g.Length0 == n && g.Length1 == n
  }

  /** A unit step: each component -1, 0 or 1, not both 0. */
  predicate IsStep(dr: int, dc: int)
  {
    -1 <= dr <= 1 && -1 <= dc <= 1 && (dr != 0 || dc != 0)
  }

  /** Coordinate x moved t steps in direction d (d is -1, 0 or 1). */
  function Step(x: int, d: int, t: int): int
  {
    if d == 0 then x else if d > 0 then x + t else x - t
  }
}
