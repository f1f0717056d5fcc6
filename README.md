# Gomoku rules and computer opponent, modelled in Dafny

This project models the two algorithmic parts of a Gomoku (five-in-a-row)
game played on an N-by-N board.

- **The rules engine** (`GameConfiguration`) validates a placement, given
  either as text such as `"A7"` or as a row and a column. It writes stones
  to the board and judges the lines through the last stone: exactly five in
  a row wins, six or more is a draw. It also detects a full board from the
  move counts, undoes the last two plies under a turn-parity guard, and
  scores a finished game as `20 - ceil(moves / 5)`.
- **The computer opponent** (`ComputerPlayer`) builds a score table:
  - every cell starts from its distance to the board's edge;
  - every window of five cells on the board (horizontal, vertical and both
    diagonals) is scored from its black and white stone counts;
  - a window's score is added to each of its five cells.

  The opponent then takes the K best empty cells one after another
  (K = 3, 2 or 1 for Easy, Medium or Hard) and plays one of them.

The modules follow the program's structure. Each module imports only the
ones before it.

| file | module | models |
|---|---|---|
| `pieces.dfy` | `Pieces` | the stone, result, level and move values, and the error outcomes that replace exceptions |
| `board.dfy` | `Boards` | the board: an N-by-N `array2<Stone>` and its column letters |
| `player.dfy` | `Players` | a player: kind, colour, move history, move counter and ranking |
| `lines.dfy` | `Lines` | the run counting behind `checkWinningLine` |
| `coords.dfy` | `Coords` | decimal row text, as `Integer.parseInt` reads it |
| `rules.dfy` | `Rules` | `GameConfiguration` and its operations |
| `windows.dfy` | `Windows` | the scoring model: windows, `tupleScore`, base values, expected cell scores |
| `heuristic.dfy` | `Heuristic` | `initScoreTable`, the six `count*Stones` helpers and `calculateScores`, in place on `array2<int>` |
| `choice.dfy` | `Choice` | `getHighestMoveCoord`, `generateMoveList` and `getMove` |
| `game.dfy` | `Game` | one ply as the game screen drives it (`placeMove`), and undo as its inverse |

Main design points:

- State the source updates in place stays mutable in the model. This covers
  the board grid, players' histories and counters, rankings, and the score
  table. Each operation's postcondition gives the whole new state.
- The score table is proved against a reference definition,
  `Windows.ExpectedScore`. That function is a cell's base value plus the
  score of every window on the board that contains the cell, each window
  counted once.
- `calculateScores` visits the windows in six sweeps. The proof tracks, for
  each axis, which windows have been added so far. It shows that the six
  sweeps together add every window exactly once.
- A Java exception becomes an `Outcome` value: `Ok(value)` or
  `Fail(error)`. There is one error constructor per check that can fail.
  When two throw sites make the same check, they share a constructor:
  `RowOutOfBoard`, `Occupied` and `UndoNotAllowed` each cover two.
- `java.util.Random` becomes a `pick` parameter on `GetMove`.

The Java source of `Board`, `Player` and `Move` is not part of this model.
Those classes are rebuilt in `board.dfy`, `player.dfy` and `pieces.dfy`
from how the two core classes use them.

## Model

| member | source | states |
|---|---|---|
| Rules.GameConfiguration.constructor | src/model/GameConfiguration.java:34-37 | a configuration created on a board plays on that board, and every cell of it is empty |
| Rules.GameConfiguration.SetChessBoard | src/model/GameConfiguration.java:34-37 | the configuration switches to the given board, and every cell of it is emptied |
| Rules.GameConfiguration.UpdateBoard | src/model/GameConfiguration.java:80-82 | the move's cell holds the move's stone; every other cell is unchanged |
| Rules.UndoGuardUnderTurnParity | src/model/GameConfiguration.java:123-153 | the undo guard (on Black's turn equal counts, on White's turn different counts, both positive): in a game that alternates turns, the guard holds exactly when White has moved at least once |
| Rules.UndoGuardAcceptsAnyGap | src/model/GameConfiguration.java:140-145 | on White's turn the guard checks only that the counts differ: counts 3 and 1, or 1 and 3, pass |
| Rules.GameConfiguration.CheckPlayersNumOfMoves | src/model/GameConfiguration.java:93-95 | for consistent players, the counts agree exactly when the two move histories are equally long |
| Rules.GameConfiguration.IsMoveAvailable | src/model/GameConfiguration.java:104-106 | for a consistent player, a move is available exactly when its history is not empty, so there is a last move to pop |
| Rules.GameConfiguration.RemoveMove | src/model/GameConfiguration.java:163-170 | the history drops its last move and the counter drops by one; that move's cell becomes empty, the returned move has its stone cleared, and nothing else changes |
| Rules.GameConfiguration.UndoMove | src/model/GameConfiguration.java:119-155 | succeeds exactly when the guard holds; a failed undo changes nothing; on success it returns [White's last, Black's last] on Black's turn and the reverse on White's, pops both histories, lowers both counters, and clears exactly those two cells |
| Rules.Cleared | src/model/GameConfiguration.java:167-168 | an undone move keeps its row and column and has an empty stone |
| Rules.WinnerScore | src/model/GameConfiguration.java:180-187 | the score is the s with 5(19 - s) < n <= 5(20 - s), i.e. 20 - ceil(n / 5), and at most 20 |
| Rules.WinnerScoreExamples | src/model/GameConfiguration.java:180-187 | 1 and 5 moves score 19; 6 and 10 moves score 18 |
| Rules.GameConfiguration.CalculateScore | src/model/GameConfiguration.java:180-187 | returns WinnerScore of the winner's move count; a human winner gains it and a human loser loses it; computer rankings, histories and counts are unchanged |
| Rules.GameConfiguration.AllocateScore | src/model/GameConfiguration.java:195-199 | the ranking grows by the score for a human player only; nothing else changes |
| Rules.GameConfiguration.IsValidMove | src/model/GameConfiguration.java:210-235 | gives each error exactly when it applies: length outside 2..3 in UTF-16 units, first character not one of the board's column letters, row text not an integer, row out of range; otherwise succeeds exactly on an empty cell, with column = letter - 'A' and row = parsed value - 1; never reports a column error; agrees with the row/column validator |
| Rules.GameConfiguration.IsValidMoveAt | src/model/GameConfiguration.java:247-258 | succeeds exactly on an empty cell of the board and returns a move with that row, column and stone; the row is checked before the column |
| Coords.Utf16Length | src/model/GameConfiguration.java:212 | the text's length as Java counts it: between the number of characters and twice that, and equal to it when no character lies above U+FFFF |
| Coords.Utf16LengthExamples | src/model/GameConfiguration.java:212 | "A1" is two units long; "A1" followed by a character above U+FFFF is four; that character alone is two |
| Rules.WideCharacterLength | src/model/GameConfiguration.java:212-214 | "A1" followed by a character above U+FFFF, and two such characters, are rejected for their length |
| Rules.TextRoundTrip | src/model/GameConfiguration.java:210-258 | for an empty cell, its printed coordinate (column letter, 1-based row) is accepted by the text validator and gives back the same move |
| Rules.GameConfiguration.IsBoardFull | src/model/GameConfiguration.java:268-276 | Continue exactly when the two move counts add up to less than N*N, Draw otherwise |
| Rules.GameConfiguration.CheckWinningLine | src/model/GameConfiguration.java:291-388 | the result is WinningLine of the board and the move: the longest run of the mover's stone through the cell over the four axes decides; more than 5 gives Draw, exactly 5 a win for the mover's colour, fewer gives Continue; the board is only read |
| Lines.CountDirection | src/model/GameConfiguration.java:304-318 | one counting loop adds the length of the run of equal stones from the next cell in one direction, stopping at a different stone or the board edge |
| Lines.RunCharacterised | src/model/GameConfiguration.java:304-318 | the counted run has length k exactly when the k cells after the start hold the stone and the cell after them is off the board or different |
| Lines.TopRowLine | src/model/GameConfiguration.java:291-388 | a top row holding only k black stones, from the left edge: a stone in it gives Continue for k < 5, a Black win for k = 5 and Draw for k > 5 |
| Boards.ColumnLetters | src/model/GameConfiguration.java:211-215 | the column letters of an N-column board are 'A' .. 'A' + N - 1, in order |
| Coords.ParseInt | src/model/GameConfiguration.java:219-224 | the row text is read as an integer exactly when it is a digit string with an optional leading sign; the value is the digits' decimal value, negated after a '-' |
| Coords.LeadingZero | src/model/GameConfiguration.java:219-224 | a leading zero does not change a digit string's value |
| Coords.ParseSignedDigits | src/model/GameConfiguration.java:219-224 | a number written with '+', with '-' or with a leading zero reads back as n, -n and n |
| Coords.ParseDigits | src/model/GameConfiguration.java:219-224 | printing a natural number in decimal and reading it back gives the number |
| Coords.FormatCoord | src/model/GameConfiguration.java:210-224 | a printed coordinate starts with the column letter and its rest reads as the 1-based row |
| Heuristic.LevelCount | src/model/ComputerPlayer.java:55-59 | Easy draws from 3 candidates, Medium from 2, Hard from 1 |
| Windows.TupleScore | src/model/ComputerPlayer.java:440-463 | -1 exactly for counts that fall in none of the named cases; counts of at most 4 never score -1; every score lies in -1 .. 800000 |
| Windows.TupleScoreOrder | src/model/ComputerPlayer.java:440-463 | a window one colour can still complete scores more with more stones; k white stones outscore k black ones; a mixed window scores below an empty one |
| Heuristic.InitScoreTable | src/model/ComputerPlayer.java:179-199 | a fresh N-by-N table whose every cell holds the quadrant base value |
| Windows.BaseScoreIsEdgeDistance | src/model/ComputerPlayer.java:179-199 | on odd boards the base value is the cell's distance to the nearest edge, min(i, j, N-1-i, N-1-j) |
| Windows.BaseScoreEvenBoard | src/model/ComputerPlayer.java:179-199 | on even boards it is not: on a 10-by-10 board cell (5, 5) gets 5, its edge distance is 4 |
| Heuristic.AccumulateRay | src/model/ComputerPlayer.java:210-366 | the shared loop of the six count helpers: five cells from a start along a unit step are counted, scored by TupleScore, and that score is added to exactly those five cells |
| Heuristic.CountLeftRightStones | src/model/ComputerPlayer.java:210-225 | adds the score of the horizontal window starting at (i, j) to its five cells and to no other cell |
| Heuristic.CountTopBottomStones | src/model/ComputerPlayer.java:236-250 | adds the score of the vertical window starting at (j, i) to its five cells and to no other cell |
| Heuristic.CountTLBRStones | src/model/ComputerPlayer.java:261-279 | adds the score of the down-right window starting at (k, j) to its five cells and to no other cell |
| Heuristic.CountTLBRStonesReversed | src/model/ComputerPlayer.java:290-308 | adds the score of the down-right window ending at (k, j) to its five cells and to no other cell |
| Heuristic.CountBLTRStones | src/model/ComputerPlayer.java:319-337 | adds the score of the up-right window starting at (k, j) to its five cells and to no other cell |
| Heuristic.CountBLTRStonesReversed | src/model/ComputerPlayer.java:348-366 | adds the score of the up-right window ending at (k, j) to its five cells and to no other cell |
| Heuristic.CalculateScores | src/model/ComputerPlayer.java:390-431 | returns a fresh table in which every cell holds ExpectedScore: the base value plus the score of every window of five on the board that contains the cell; the six sweeps add each window exactly once |
| Heuristic.ScoreRows | src/model/ComputerPlayer.java:394-399 | starting from the table with no window added, the left-to-right sweep adds every horizontal window once |
| Heuristic.ScoreColumns | src/model/ComputerPlayer.java:400-405 | the top-to-bottom sweep then adds every vertical window once |
| Heuristic.ScoreLowerDiagonals | src/model/ComputerPlayer.java:406-411 | the first down-right sweep adds every down-right window of the bottom-left triangle once |
| Heuristic.ScoreUpperDiagonals | src/model/ComputerPlayer.java:412-417 | the reversed down-right sweep adds the remaining down-right windows, those of the top-right triangle, once |
| Heuristic.ScoreUpperAntiDiagonals | src/model/ComputerPlayer.java:418-423 | the first up-right sweep adds every up-right window of the top-left triangle once |
| Heuristic.ScoreLowerAntiDiagonals | src/model/ComputerPlayer.java:424-429 | the reversed up-right sweep adds the remaining up-right windows, those of the bottom-right triangle, once, completing ExpectedScore |
| Windows.AddWindow | src/model/ComputerPlayer.java:390-431 | adding one more window to the ones counted changes the sums of exactly its five cells, by its score |
| Windows.ScoreRange | src/model/ComputerPlayer.java:390-431 | every final cell score lies in -20 .. N + 16000000, far inside a 32-bit int |
| Choice.GetHighestMoveCoord | src/model/ComputerPlayer.java:137-167 | fails exactly when a listed coordinate is off the board, which crashes the source; otherwise returns the first cell in row-major order that is empty, not listed, and has the strictly highest positive score, or (-1, -1) when no cell qualifies |
| Choice.StrikeOut | src/model/ComputerPlayer.java:143-145 | when every listed coordinate is on the board, the table afterwards is the old one with exactly the listed cells set to -1 |
| Choice.Scan | src/model/ComputerPlayer.java:146-161 | the row-major scan returns the first cell with the strictly highest positive score among empty cells, or (-1, -1) |
| Choice.HighestUnique | src/model/ComputerPlayer.java:146-161 | the chosen cell is determined uniquely by the table and the board |
| Choice.GenerateMoveList | src/model/ComputerPlayer.java:115-127 | on success the list has exactly K entries, each the highest cell once the earlier entries are excluded, and only the last can be (-1, -1); a failure means a shorter such list already ends in (-1, -1), so the next round would index the table at -1 |
| Choice.ChainUnique | src/model/ComputerPlayer.java:115-127 | the move list for a board and a level is unique |
| Choice.ChainOrdered | src/model/ComputerPlayer.java:115-127 | the real entries of the move list are distinct empty cells with positive scores, in non-increasing score order, and no (-1, -1) comes before one |
| Choice.Play | src/model/ComputerPlayer.java:97-102 | a move is made exactly when the coordinate is on the board, with that row, column and the player's colour |
| Choice.GetMove | src/model/ComputerPlayer.java:80-105 | on success the move is Play of the picked entry of a full-length move list with no (-1, -1) before its last entry; when made it is on an empty cell of the board in the player's colour; a failure means a shorter move list already ends in (-1, -1) |
| Choice.FailForcesEarlyNone | src/model/ComputerPlayer.java:115-145 | if a move list shorter than another ends in (-1, -1), the longer one holds (-1, -1) before its last entry; so for one board and level GenerateMoveList and GetMove either succeed or fail, never both |
| Choice.EmptyBoardCentre | src/model/ComputerPlayer.java:137-199 | on an empty odd board of size at least 9, the first choice is the centre (N/2, N/2) |
| Choice.HardOpensInCentre | src/model/ComputerPlayer.java:115-127 | on such a board the Hard move list is exactly [(N/2, N/2)] |
| Game.RoundOutcome | src/application/OnGameController.java:391-411 | a full board is a draw whatever the line says; otherwise the line result stands |
| Game.PlaceMove | src/application/OnGameController.java:376-412 | the move joins the mover's history, the counter grows by one, its cell holds its stone and nothing else changes; the round's result combines the line check and the board-full check |
| Game.PlayTwoThenUndo | src/application/OnGameController.java:376-428 | after Black and White each place a stone on an empty cell, an undo on Black's turn succeeds, returns White's then Black's move with cleared stones, and restores the board, both histories and both counters |

## Left out

- The JavaFX screens are not modelled: drawing, the countdown timers, sound, images, scene loading and mouse-to-grid rounding. `placeMove`'s turn flip and its call into the game-over handler are left out too; `Game.PlaceMove` returns the round's result instead.
- The game-time and undo-enabled settings (`GameConfiguration.java:17-73`) are left out. They are plain getters and setters.
- Randomness is left out: `GetMove` takes the index `pick`, in `0 .. K-1`, instead of `Random.nextInt`.
- Exceptions become `Outcome` values, so the message texts of `InvalidPlacementException` and `InvalidUndoException` are left out.
- The static `levelMap` (`ComputerPlayer.java:15, 55-59`), which the constructors refill, is the constant function `LevelCount`.
- Coords.ParseInt: reads ASCII digits `0`..`9` with an optional `+` or `-`. `Integer.parseInt` also accepts other Unicode decimal digits, which the model does not. Only texts of at most two characters reach it, so it never overflows.
- Boards.ColumnLetters: the board is limited to 26 columns, the letters `A`..`Z`. The source's alphabet list is not shown and is taken to be `'A' ..` in order.
- The `Player`/`HumanPlayer`/`ComputerPlayer` hierarchy becomes one `Player` class with a kind tag (`Human` or `Computer(level)`). Only a human ranking changes.
- `Move` objects are values. The source clears the stone of a move object that is also held in the history list. That aliasing is not modelled, because the move is removed from the history first.
- Rules.GameConfiguration.UndoMove and RemoveMove require each history entry to name a cell of the board (`Fits`) and the two players to be distinct objects. Callers always meet both.
- Heuristic.CountTLBRStones, CountTLBRStonesReversed, CountBLTRStones and CountBLTRStonesReversed: the guards `m == k + 5`/`m == k - 5` before the score is added are always true after the five-step loop, so the model adds unconditionally.
- Choice.GetHighestMoveCoord: when a listed coordinate is `(-1, -1)`, the source indexes `scoreTable[-1]` and throws. The model returns `Fail(IndexOutOfBounds)` rather than requiring this never happens. The failure propagates through `GenerateMoveList` and `GetMove`.
- Arithmetic is unbounded `int`, with no 32-bit wrap-around. Windows.ScoreRange bounds only the final cell scores, far below 2^31. A running sum during the sweeps is the base value plus some of the same at most twenty cell windows, so it lies in the same range; that is not proved separately. Move counts and rankings are not wrapped either.
- For the proof, the loops of `getHighestMoveCoord` and `calculateScores` are split into smaller methods; the order of the table updates is the source's. `getHighestMoveCoord`'s strike-out loop becomes `Choice.StrikeOut` and its row-major scan `Choice.Scan`. `calculateScores`'s six nested loops become `Heuristic.ScoreRows`, `ScoreColumns`, `ScoreLowerDiagonals`, `ScoreUpperDiagonals`, `ScoreUpperAntiDiagonals` and `ScoreLowerAntiDiagonals`. Each loop body is a one-window step (`ScoreRowWindow` … `ScoreLowerAntiDiagonalWindow`) around the source's `count*Stones` call.
