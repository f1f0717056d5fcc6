/**
 * The rules engine: validating a placement, applying it to the board,
 * judging the lines it makes, detecting a full board, undoing the last
 * two plies and scoring a finished game.
 */
module Rules {
  import opened Pieces
  import opened Boards
  import opened Players
  import opened Lines
  import opened Coords

  /**
   * The score a winner earns for a game won in numOfMoves moves: 20 minus
   * the number of started groups of five moves, i.e. 20 - ceil(n / 5).
   */
  function WinnerScore(numOfMoves: nat): (score: int)
    ensures 5 * (19 - score) < numOfMoves <= 5 * (20 - score)
    ensures score <= 20
  {
    var gameScore := if numOfMoves % 5 == 0 then numOfMoves / 5 else numOfMoves / 5 + 1;
    20 - gameScore
  }

  lemma WinnerScoreExamples()
    ensures WinnerScore(1) == 19 && WinnerScore(5) == 19 && WinnerScore(6) == 18 && WinnerScore(10) == 18
  {
  }

  /**
   * When an undo may go ahead. On Black's turn both players must have the
   * same number of moves; on White's turn the counts must differ. Either
   * way both players must have at least one move.
   */
  predicate UndoAllowed(blackTurn: bool, blackMoves: int, whiteMoves: int)
  {
    if blackTurn then blackMoves == whiteMoves && whiteMoves > 0 && blackMoves > 0
    else blackMoves != whiteMoves && blackMoves > 0 && whiteMoves > 0
  }

  /**
   * In a game that alternates turns (Black has made as many moves as White
   * when it is Black's turn, one more when it is White's), the guard comes
   * down to: White has moved at least once.
   */
  lemma UndoGuardUnderTurnParity(blackTurn: bool, blackMoves: nat, whiteMoves: nat)
    requires blackTurn ==> blackMoves == whiteMoves
    requires !blackTurn ==> blackMoves == whiteMoves + 1
    ensures UndoAllowed(blackTurn, blackMoves, whiteMoves) <==> whiteMoves >= 1
  {
  }

  /** On White's turn the guard only asks for different counts, not a difference of one. */
  lemma UndoGuardAcceptsAnyGap()
    ensures UndoAllowed(false, 3, 1) && UndoAllowed(false, 1, 3)
  {
  }

  /** A move with its stone cleared, as undo leaves it. */
  function Cleared(m: Move): (c: Move)
    ensures c.row == m.row && c.col == m.col && c.stone == Empty
  {
    m.(stone := Empty)
  }

  class GameConfiguration {
    var chessBoard: Board

    ghost predicate Valid()
      reads this, chessBoard
    {
      chessBoard.Valid()
    }

    /** Every move in p's history names a cell of this board. */
    ghost predicate Fits(p: Player)
      reads this, chessBoard, p
    {
      forall k :: 0 <= k < |p.moves| ==> InBoard(chessBoard.size, p.moves[k].row, p.moves[k].col)
    }

    /** A configuration playing on board, which is emptied. */
    constructor (board: Board)
      requires board.Valid()
      modifies board.grid
      ensures Valid() && chessBoard == board
      ensures forall r, c :: InBoard(board.size, r, c) ==> board.grid[r, c] == Empty
    {
      chessBoard := board;
      new;
      board.InitBoard();
    }

    /** Switches to a new board and empties it. */
    method SetChessBoard(board: Board)
      requires board.Valid()
      modifies this, board.grid
      ensures Valid() && chessBoard == board
      ensures forall r, c :: InBoard(board.size, r, c) ==> board.grid[r, c] == Empty
    {
      chessBoard := board;
      board.InitBoard();
    }

    /** Writes the move's stone into its cell; every other cell is unchanged. */
    method UpdateBoard(m: Move)
      requires Valid() && InBoard(chessBoard.size, m.row, m.col)
      modifies chessBoard.grid
      ensures chessBoard.grid[m.row, m.col] == m.stone
      ensures forall a, b :: InBoard(chessBoard.size, a, b) && (a, b) != (m.row, m.col) ==>
                chessBoard.grid[a, b] == old(chessBoard.grid[a, b])
    {
      chessBoard.SetCoord(m.row, m.col, m.stone);
    }

    /** Both players have made the same number of moves, so their histories are equally long. */
    predicate CheckPlayersNumOfMoves(playerBlack: Player, playerWhite: Player): (same: bool)
      reads playerBlack, playerWhite
      ensures playerBlack.Valid() && playerWhite.Valid() ==> (same <==> |playerBlack.moves| == |playerWhite.moves|)
    {
      playerBlack.numOfMoves == playerWhite.numOfMoves
    }

    /** p has a move to give back: its history is not empty. */
    predicate IsMoveAvailable(p: Player): (available: bool)
      reads p
      ensures p.Valid() ==> (available <==> |p.moves| > 0)
    {
      p.numOfMoves > 0
    }

    /**
     * Pops p's last move: the history loses its last element, the counter
     * drops by one, and the move's cell and the returned move are cleared.
     */
    method RemoveMove(p: Player) returns (last: Move)
      requires Valid() && p.Valid() && Fits(p) && p.numOfMoves > 0
      modifies p, chessBoard.grid
      ensures last == Cleared(old(p.moves[|p.moves| - 1]))
      ensures p.moves == old(p.moves[..|p.moves| - 1]) && p.numOfMoves == old(p.numOfMoves) - 1
      ensures p.Valid() && Fits(p)
      ensures p.ranking == old(p.ranking) && p.color == old(p.color)
      ensures chessBoard.grid[last.row, last.col] == Empty
      ensures forall a, b :: InBoard(chessBoard.size, a, b) && (a, b) != (last.row, last.col) ==>
                chessBoard.grid[a, b] == old(chessBoard.grid[a, b])
    {
      last := p.moves[p.numOfMoves - 1];
      p.moves := p.moves[..p.numOfMoves - 1] + p.moves[p.numOfMoves..];
      p.DecrementMoveCount();
      last := last.(stone := Empty);
      UpdateBoard(last);
    }

    /**
     * Undoes the last ply of each player, the opponent's first. Fails, and
     * changes nothing, unless UndoAllowed holds for the current counts.
     */
    method UndoMove(blackTurn: bool, playerBlack: Player, playerWhite: Player)
      returns (r: Outcome<seq<Move>, UndoError>)
      requires Valid() && playerBlack != playerWhite
      requires playerBlack.Valid() && playerWhite.Valid() && Fits(playerBlack) && Fits(playerWhite)
      modifies playerBlack, playerWhite, chessBoard.grid
      ensures r.Ok? <==> UndoAllowed(blackTurn, old(playerBlack.numOfMoves), old(playerWhite.numOfMoves))
      ensures r.Fail? ==> r.error == UndoNotAllowed
      ensures r.Fail? ==> unchanged(playerBlack, playerWhite, chessBoard.grid)
      ensures r.Ok? ==>
        var lastBlack := old(playerBlack.moves[|playerBlack.moves| - 1]);
        var lastWhite := old(playerWhite.moves[|playerWhite.moves| - 1]);
        && r.value == (if blackTurn then [Cleared(lastWhite), Cleared(lastBlack)]
                       else [Cleared(lastBlack), Cleared(lastWhite)])
        && playerBlack.moves == old(playerBlack.moves[..|playerBlack.moves| - 1])
        && playerWhite.moves == old(playerWhite.moves[..|playerWhite.moves| - 1])
        && playerBlack.numOfMoves == old(playerBlack.numOfMoves) - 1
        && playerWhite.numOfMoves == old(playerWhite.numOfMoves) - 1
        && (forall a, b :: InBoard(chessBoard.size, a, b) ==>
              chessBoard.grid[a, b] ==
                if (a, b) == (lastBlack.row, lastBlack.col) || (a, b) == (lastWhite.row, lastWhite.col)
                then Empty else old(chessBoard.grid[a, b]))
      ensures playerBlack.Valid() && playerWhite.Valid() && Fits(playerBlack) && Fits(playerWhite)
      ensures playerBlack.ranking == old(playerBlack.ranking) && playerWhite.ranking == old(playerWhite.ranking)
      ensures playerBlack.color == old(playerBlack.color) && playerWhite.color == old(playerWhite.color)
    {
      if blackTurn {
        if CheckPlayersNumOfMoves(playerBlack, playerWhite) && IsMoveAvailable(playerWhite)
           && IsMoveAvailable(playerBlack) {
          var lastMove := RemoveMove(playerWhite);
          var undoMoves := [lastMove];
          lastMove := RemoveMove(playerBlack);
          undoMoves := undoMoves + [lastMove];
          r := Ok(undoMoves);
        } else {
          r := Fail(UndoNotAllowed);
        }
      } else {
        if !CheckPlayersNumOfMoves(playerBlack, playerWhite) && IsMoveAvailable(playerBlack)
           && IsMoveAvailable(playerWhite) {
          var lastMove := RemoveMove(playerBlack);
          var undoMoves := [lastMove];
          lastMove := RemoveMove(playerWhite);
          undoMoves := undoMoves + [lastMove];
          r := Ok(undoMoves);
        } else {
          r := Fail(UndoNotAllowed);
        }
      }
    }

    /**
     * Scores a finished game: the winner earns WinnerScore of its move
     * count and the loser the negation; only human rankings change.
     */
    method CalculateScore(winner: Player, opponent: Player) returns (score: int)
      requires winner != opponent && winner.Valid()
      modifies winner, opponent
      ensures score == WinnerScore(old(winner.numOfMoves))
      ensures winner.ranking == old(winner.ranking) + (if winner.kind.Human? then score else 0)
      ensures opponent.ranking == old(opponent.ranking) - (if opponent.kind.Human? then score else 0)
      ensures winner.moves == old(winner.moves) && winner.numOfMoves == old(winner.numOfMoves)
      ensures opponent.moves == old(opponent.moves) && opponent.numOfMoves == old(opponent.numOfMoves)
      ensures winner.color == old(winner.color) && opponent.color == old(opponent.color)
    {
      var numOfMoves := winner.numOfMoves;
      var gameScore := if numOfMoves % 5 == 0 then numOfMoves / 5 else numOfMoves / 5 + 1;
      score := 20 - gameScore;
      AllocateScore(winner, score);
      AllocateScore(opponent, -score);
    }

    /** Adds score to p's ranking when p is a human player. */
    method AllocateScore(p: Player, score: int)
      modifies p
      ensures p.ranking == old(p.ranking) + (if p.kind.Human? then score else 0)
      ensures p.moves == old(p.moves) && p.numOfMoves == old(p.numOfMoves) && p.color == old(p.color)
    {
      if p.kind.Human? {
        p.AddRanking(score);
      }
    }

    /**
     * The text-coordinate validator ("A7": column letter, then 1-based row).
     * The length is Java's, in UTF-16 code units.
     */
    function IsValidMove(coord: string, stone: Stone): (r: Outcome<Move, PlacementError>)
      requires Valid()
      reads this, chessBoard, chessBoard.grid
      ensures r == Fail(BadLength) <==> Utf16Length(coord) < 2 || Utf16Length(coord) > 3
      ensures r == Fail(ColumnNotOnBoard) <==>
                2 <= Utf16Length(coord) <= 3 && !('A' <= coord[0] && (coord[0] as int) < 'A' as int + chessBoard.size)
      ensures r == Fail(RowNotNumeric) <==>
                2 <= Utf16Length(coord) <= 3 && coord[0] in ColumnLetters(chessBoard.size) && ParseInt(coord[1..]).None?
      ensures r == Fail(RowOutOfBoard) <==>
                2 <= Utf16Length(coord) <= 3 && coord[0] in ColumnLetters(chessBoard.size) && ParseInt(coord[1..]).Some?
                && !(1 <= ParseInt(coord[1..]).value <= chessBoard.size)
      ensures r.Fail? ==> r.error != ColOutOfBoard
      ensures r.Ok? ==> && 2 <= |coord| <= 3
                        && r.value.col == coord[0] as int - 'A' as int
                        && ParseInt(coord[1..]) == Some(r.value.row + 1)
                        && r.value.stone == stone
      ensures r.Ok? ==> IsValidMoveAt(r.value.row, r.value.col, stone) == r
      ensures (r == Fail(Occupied) || r.Ok?) ==>
                var row := ParseInt(coord[1..]).value - 1;
                var col := coord[0] as int - 'A' as int;
                InBoard(chessBoard.size, row, col) && (r.Ok? <==> chessBoard.grid[row, col] == Empty)
    {
      var alphabetList := chessBoard.GetAlphabetList();
      if Utf16Length(coord) < 2 || Utf16Length(coord) > 3 then Fail(BadLength)
      else if coord[0] !in alphabetList then Fail(ColumnNotOnBoard)
      else
        var col := coord[0] as int - 'A' as int;
        match ParseInt(coord[1..])
        case None => Fail(RowNotNumeric)
        case Some(v) =>
          var row := v - 1;
          if row >= chessBoard.size || row < 0 then Fail(RowOutOfBoard)
          else if chessBoard.GetCoord(row, col) != Empty then Fail(Occupied)
          else Ok(Move(row, col, stone))
    }

    /** The row/column validator: on the board and the cell empty. */
    function IsValidMoveAt(row: int, col: int, stone: Stone): (r: Outcome<Move, PlacementError>)
      requires Valid()
      reads this, chessBoard, chessBoard.grid
      ensures r.Ok? <==> InBoard(chessBoard.size, row, col) && chessBoard.grid[row, col] == Empty
      ensures r.Ok? ==> r.value == Move(row, col, stone)
      ensures r == Fail(RowOutOfBoard) <==> !(0 <= row < chessBoard.size)
      ensures r == Fail(ColOutOfBoard) <==> 0 <= row < chessBoard.size && !(0 <= col < chessBoard.size)
      ensures r.Fail? ==> r.error in {RowOutOfBoard, ColOutOfBoard, Occupied}
    {
      if row < 0 || row >= chessBoard.size then Fail(RowOutOfBoard)
      else if col < 0 || col >= chessBoard.size then Fail(ColOutOfBoard)
      else if chessBoard.GetCoord(row, col) != Empty then Fail(Occupied)
      else Ok(Move(row, col, stone))
    }

    /** Continue while fewer moves have been made than there are cells, Draw after. */
    function IsBoardFull(player1: Player, player2: Player): (r: Result)
      requires Valid()
      reads this, chessBoard, player1, player2
      ensures r == Continue <==> player1.numOfMoves + player2.numOfMoves < chessBoard.size * chessBoard.size
      ensures r != Continue ==> r == Draw
    {
      var boardSize := chessBoard.size;
      var totalAvailableMoves := boardSize * boardSize;
      if player1.numOfMoves + player2.numOfMoves < totalAvailableMoves then Continue else Draw
    }

    /**
     * Judges the lines through the move just placed: the longest run of the
     * mover's stone over the four axes decides; the board is only read.
     */
    method CheckWinningLine(m: Move) returns (r: Result)
      requires Valid() && InBoard(chessBoard.size, m.row, m.col)
      ensures r == WinningLine(chessBoard.grid, m)
    {
      var board := chessBoard.grid;
      // 1. top to bottom
      var count := CountDirection(board, m.row, m.col, -1, 0, m.stone, 1);
      count := CountDirection(board, m.row, m.col, 1, 0, m.stone, count);
      var directionCounts := [count];
      // 2. left to right
      count := CountDirection(board, m.row, m.col, 0, -1, m.stone, 1);
      count := CountDirection(board, m.row, m.col, 0, 1, m.stone, count);
      directionCounts := directionCounts + [count];
      // 3. top left to bottom right
      count := CountDirection(board, m.row, m.col, -1, -1, m.stone, 1);
      count := CountDirection(board, m.row, m.col, 1, 1, m.stone, count);
      directionCounts := directionCounts + [count];
      // 4. top right to bottom left
      count := CountDirection(board, m.row, m.col, -1, 1, m.stone, 1);
      count := CountDirection(board, m.row, m.col, 1, -1, m.stone, count);
      directionCounts := directionCounts + [count];
      assert directionCounts[0] == AxisCount(board, m.row, m.col, 1, 0, m.stone);
      assert directionCounts[1] == AxisCount(board, m.row, m.col, 0, 1, m.stone);
      assert directionCounts[2] == AxisCount(board, m.row, m.col, 1, 1, m.stone);
      assert directionCounts[3] == AxisCount(board, m.row, m.col, -1, 1, m.stone);
      var maxCount := Max(Max(directionCounts[0], directionCounts[1]), Max(directionCounts[2], directionCounts[3]));
      if maxCount > WinCount {
        r := Draw;
      } else if maxCount == WinCount {
        if m.stone == Black {
          r := BlackWin;
        } else {
          r := WhiteWin;
        }
      } else {
        r := Continue;
      }
    }
  }

  /**
   * Lengths are counted in UTF-16 units: "A1" followed by a character above
   * U+FFFF is four units long, and so are two such characters.
   */
  lemma WideCharacterLength(config: GameConfiguration, stone: Stone)
    requires config.Valid()
    ensures config.IsValidMove("A1\U{1F600}", stone) == Fail(BadLength)
    ensures config.IsValidMove("\U{1F600}\U{1F600}", stone) == Fail(BadLength)
  {
    Utf16LengthExamples();
  }

  /** Printing a cell's coordinate and reading it back names the same empty cell. */
  lemma TextRoundTrip(config: GameConfiguration, row: int, col: int, stone: Stone)
    requires config.Valid() && config.IsValidMoveAt(row, col, stone).Ok?
    ensures config.IsValidMove(FormatCoord(row, col), stone) == Ok(Move(row, col, stone))
  {
    var coord := FormatCoord(row, col);
    assert coord[0] in ColumnLetters(config.chessBoard.size);
    assert |Digits(row + 1)| <= 2;
  }
}
