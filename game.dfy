/**
 * One ply of play as the game screen drives the rules engine: record the
 * move in the mover's history, write it to the board, then judge the
 * lines through it and whether the board is full. Undo reverses exactly
 * two such plies.
 */
module Game {
  import opened Pieces
  import opened Players
  import opened Lines
  import opened Rules

  /**
   * The round's result from the line check and the board-full check: a
   * full board is a draw whatever the line says; otherwise the line decides.
   */
  function RoundOutcome(line: Result, full: Result): (r: Result)
    requires full == Continue || full == Draw
    ensures full == Draw ==> r == Draw
    ensures full == Continue ==> r == line
  {
    if line == Continue && full == Continue then Continue
    else if full == Draw then Draw
    else line
  }

  /**
   * Places a validated move for current: its history and counter grow by
   * the move, its cell takes the stone, and the round is judged.
   */
  method PlaceMove(config: GameConfiguration, m: Move, current: Player, opponent: Player) returns (r: Result)
    requires config.Valid() && current != opponent && current.Valid() && config.Fits(current)
    requires InBoard(config.chessBoard.size, m.row, m.col)
    modifies current, config.chessBoard.grid
    ensures current.moves == old(current.moves) + [m] && current.numOfMoves == old(current.numOfMoves) + 1
    ensures current.Valid() && config.Fits(current)
    ensures current.ranking == old(current.ranking) && current.color == old(current.color)
    ensures config.chessBoard.grid[m.row, m.col] == m.stone
    ensures forall a, b :: InBoard(config.chessBoard.size, a, b) && (a, b) != (m.row, m.col) ==>
              config.chessBoard.grid[a, b] == old(config.chessBoard.grid[a, b])
    ensures r == RoundOutcome(WinningLine(config.chessBoard.grid, m), config.IsBoardFull(current, opponent))
  {
    current.moves := current.moves + [m];
    current.IncrementMoveCount();
    config.UpdateBoard(m);
    var roundResult := config.CheckWinningLine(m);
    var checkNumOfMoves := config.IsBoardFull(current, opponent);
    r := RoundOutcome(roundResult, checkNumOfMoves);
  }

  /**
   * Black plays bm, White answers with wm, and an undo on Black's turn
   * takes both back: the board and both histories are as they were, and
   * the undo reports White's move, then Black's, with their stones cleared.
   */
  method PlayTwoThenUndo(config: GameConfiguration, playerBlack: Player, playerWhite: Player, bm: Move, wm: Move)
    returns (r: Outcome<seq<Move>, UndoError>)
    requires config.Valid() && playerBlack != playerWhite
    requires playerBlack.Valid() && playerWhite.Valid() && config.Fits(playerBlack) && config.Fits(playerWhite)
    requires playerBlack.numOfMoves == playerWhite.numOfMoves
    requires InBoard(config.chessBoard.size, bm.row, bm.col) && InBoard(config.chessBoard.size, wm.row, wm.col)
    requires (bm.row, bm.col) != (wm.row, wm.col)
    requires config.chessBoard.grid[bm.row, bm.col] == Empty && config.chessBoard.grid[wm.row, wm.col] == Empty
    modifies playerBlack, playerWhite, config.chessBoard.grid
    ensures r == Ok([Cleared(wm), Cleared(bm)])
    ensures playerBlack.moves == old(playerBlack.moves) && playerWhite.moves == old(playerWhite.moves)
    ensures playerBlack.numOfMoves == old(playerBlack.numOfMoves) && playerWhite.numOfMoves == old(playerWhite.numOfMoves)
    ensures forall a, b :: InBoard(config.chessBoard.size, a, b) ==>
              config.chessBoard.grid[a, b] == old(config.chessBoard.grid[a, b])
  {
    var _ := PlaceMove(config, bm, playerBlack, playerWhite);
    var _ := PlaceMove(config, wm, playerWhite, playerBlack);
    r := config.UndoMove(true, playerBlack, playerWhite);
  }
}
