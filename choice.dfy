/**
 * How the computer opponent picks its move from the score table: strike
 * out the cells already chosen, take the first empty cell in row-major
 * order with the largest positive score, repeat once per candidate the
 * difficulty level allows, and play the candidate a random index names.
 */
module Choice {
  import opened Pieces
  import opened Windows
  import opened Heuristic
  import opened Rules
  import opened Players

  /**
   * The run-time failure of striking out a listed cell that is not on
   * the board: it happens when a "none found" answer (-1, -1) is listed
   * and another candidate is asked for.
   */
  datatype Fault = IndexOutOfBounds

  /** Row-major order on cells: (a, b) is scanned before (r, c). */
  predicate Before(a: int, b: int, r: int, c: int)
  {
    a < r || (a == r && b < c)
  }

  /** The heuristic's score of every cell, as a table. */
  ghost function Scores(g: array2<Stone>, n: int): (t: seq<seq<int>>)
    requires Square(g, n)
    reads g
    ensures Shaped(t, n)
    ensures forall a, b :: InBoard(n, a, b) ==> t[a][b] == ExpectedScore(g, n, a, b)
  {
    seq(n, a requires 0 <= a < n reads g => seq(n, b requires 0 <= b < n reads g => ExpectedScore(g, n, a, b)))
  }

  /** Table t with the listed cells struck out (set to -1). */
  function Mask(t: seq<seq<int>>, n: int, listed: seq<Coord>): (u: seq<seq<int>>)
    requires Shaped(t, n)
    ensures Shaped(u, n)
    ensures forall a, b :: InBoard(n, a, b) ==> u[a][b] == (if (a, b) in listed then -1 else t[a][b])
  {
    seq(n, a requires 0 <= a < n => seq(n, b requires 0 <= b < n => if (a, b) in listed then -1 else t[a][b]))
  }

  /** Table t with the one cell (r, c) set to -1. */
  function Strike(t: seq<seq<int>>, n: int, r: int, c: int): (u: seq<seq<int>>)
    requires Shaped(t, n) && InBoard(n, r, c)
    ensures Shaped(u, n)
    ensures forall a, b :: InBoard(n, a, b) ==> u[a][b] == (if (a, b) == (r, c) then -1 else t[a][b])
  {
    t[r := t[r][c := -1]]
  }

  /** Striking out one more listed cell is one more Strike. */
  lemma MaskStep(t: seq<seq<int>>, n: int, listed: seq<Coord>, r: int, c: int)
    requires Shaped(t, n) && InBoard(n, r, c)
    ensures Mask(t, n, listed + [(r, c)]) == Strike(Mask(t, n, listed), n, r, c)
  {
    SameTables(Mask(t, n, listed + [(r, c)]), Strike(Mask(t, n, listed), n, r, c), n);
  }

  /** A cell the scan may pick: on the board, empty, and with a positive score in t. */
  ghost predicate Candidate(g: array2<Stone>, n: int, t: seq<seq<int>>, a: int, b: int)
    requires Square(g, n) && Shaped(t, n)
    reads g
  {
    InBoard(n, a, b) && g[a, b] == Empty && t[a][b] > 0
  }

  /**
   * m is what the row-major scan of t finds: the first candidate with the
   * largest score, or (-1, -1) when there is no candidate at all.
   */
  ghost predicate HighestIn(g: array2<Stone>, n: int, t: seq<seq<int>>, m: Coord)
    requires Square(g, n) && Shaped(t, n)
    reads g
  {
    || (m == NoCoord && forall a, b :: !Candidate(g, n, t, a, b))
    || (Candidate(g, n, t, m.0, m.1)
        && forall a, b :: Candidate(g, n, t, a, b) ==>
             t[a][b] <= t[m.0][m.1] && (Before(a, b, m.0, m.1) ==> t[a][b] < t[m.0][m.1]))
  }

  /** m is the best cell of the board once the listed cells are struck out. */
  ghost predicate IsHighest(g: array2<Stone>, n: int, listed: seq<Coord>, m: Coord)
    requires Square(g, n)
    reads g
  {
    HighestIn(g, n, Mask(Scores(g, n), n, listed), m)
  }

  /** The scan's answer is determined: no two cells are both "the highest". */
  lemma HighestUnique(g: array2<Stone>, n: int, t: seq<seq<int>>, m1: Coord, m2: Coord)
    requires Square(g, n) && Shaped(t, n)
    requires HighestIn(g, n, t, m1) && HighestIn(g, n, t, m2)
    ensures m1 == m2
  {
  }

  /** Each entry of ms is the highest cell once the entries before it are struck out. */
  ghost predicate Chain(g: array2<Stone>, n: int, ms: seq<Coord>)
    requires Square(g, n)
    reads g
  {
    forall k :: 0 <= k < |ms| ==> IsHighest(g, n, ms[..k], ms[k])
  }

  /** Every prefix of a candidate list is a candidate list. */
  lemma ChainPrefix(g: array2<Stone>, n: int, ms: seq<Coord>, k: int)
    requires Square(g, n) && Chain(g, n, ms) && 0 <= k <= |ms|
    ensures Chain(g, n, ms[..k])
  {
    forall u | 0 <= u < k
      ensures IsHighest(g, n, ms[..k][..u], ms[..k][u])
    {
      assert ms[..k][..u] == ms[..u];
      assert IsHighest(g, n, ms[..u], ms[u]);
    }
  }

  /** The candidate list of a given length is unique. */
  lemma {:induction false} ChainUnique(g: array2<Stone>, n: int, ms1: seq<Coord>, ms2: seq<Coord>)
    requires Square(g, n) && Chain(g, n, ms1) && Chain(g, n, ms2) && |ms1| == |ms2|
    ensures ms1 == ms2
  {
    if |ms1| > 0 {
      var k := |ms1| - 1;
      ChainPrefix(g, n, ms1, k);
      ChainPrefix(g, n, ms2, k);
      ChainUnique(g, n, ms1[..k], ms2[..k]);
      assert IsHighest(g, n, ms1[..k], ms1[k]);
      assert IsHighest(g, n, ms2[..k], ms2[k]);
      HighestUnique(g, n, Mask(Scores(g, n), n, ms1[..k]), ms1[k], ms2[k]);
      assert ms1 == ms1[..k] + [ms1[k]];
      assert ms2 == ms2[..k] + [ms2[k]];
    }
  }

  /**
   * A real entry of a candidate list is an empty cell with a positive
   * score that no earlier entry names, it scores no more than every
   * earlier entry, and every earlier entry is real too.
   */
  lemma ChainOrdered(g: array2<Stone>, n: int, ms: seq<Coord>, k: int, u: int)
    requires Square(g, n) && Chain(g, n, ms) && 0 <= k < u < |ms| && ms[u] != NoCoord
    ensures InBoard(n, ms[u].0, ms[u].1) && g[ms[u].0, ms[u].1] == Empty
    ensures ExpectedScore(g, n, ms[u].0, ms[u].1) > 0
    ensures ms[k] != NoCoord && ms[k] != ms[u]
    ensures InBoard(n, ms[k].0, ms[k].1)
    ensures ExpectedScore(g, n, ms[u].0, ms[u].1) <= ExpectedScore(g, n, ms[k].0, ms[k].1)
  {
    var tu := Mask(Scores(g, n), n, ms[..u]);
    var tk := Mask(Scores(g, n), n, ms[..k]);
    assert IsHighest(g, n, ms[..u], ms[u]);
    assert IsHighest(g, n, ms[..k], ms[k]);
    var (a, b) := ms[u];
    assert Candidate(g, n, tu, a, b);
    assert ms[k] in ms[..u];
    assert (a, b) !in ms[..u];
    assert ms[..k] <= ms[..u];
    assert (a, b) !in ms[..k];
    assert Candidate(g, n, tk, a, b);
    var (r, c) := ms[k];
    assert InBoard(n, r, c) && (r, c) !in ms[..k];
    assert (a, b) != (r, c);
  }

  /**
   * Strikes out the listed cells of a fresh score table, then scans it
   * row by row for the first empty cell with the largest positive score.
   * Striking out a cell off the board fails, as the array write would.
   */
  method GetHighestMoveCoord(moveList: seq<Coord>, board: array2<Stone>, n: nat) returns (r: Outcome<Coord, Fault>)
    requires Square(board, n)
    ensures r.Fail? <==> exists k :: 0 <= k < |moveList| && !InBoard(n, moveList[k].0, moveList[k].1)
    ensures r.Ok? ==> IsHighest(board, n, moveList, r.value)
  {
    var scoreTable := CalculateScores(board, n);
    ghost var scores := Snapshot(scoreTable, n);
    SameTables(scores, Scores(board, n), n);
    var struck := StrikeOut(scoreTable, n, moveList);
    if !struck {
      return Fail(IndexOutOfBounds);
    }
    var goal := Scan(board, scoreTable, n, Mask(scores, n, moveList));
    return Ok(goal);
  }

  /**
   * The first loop of getHighestMoveCoord: sets the entry of every listed
   * cell to -1, and fails at the first listed cell that is not on the board.
   */
  method StrikeOut(scoreTable: array2<int>, n: nat, moveList: seq<Coord>) returns (struck: bool)
    requires Square(scoreTable, n)
    modifies scoreTable
    ensures struck <==> forall k :: 0 <= k < |moveList| ==> InBoard(n, moveList[k].0, moveList[k].1)
    ensures struck ==> Snapshot(scoreTable, n) == Mask(old(Snapshot(scoreTable, n)), n, moveList)
  {
    ghost var scores := Snapshot(scoreTable, n);
    SameTables(scores, Mask(scores, n, []), n);
    assert moveList[..0] == [];
    var k := 0;
    while k < |moveList|
      invariant 0 <= k <= |moveList|
      invariant forall u :: 0 <= u < k ==> InBoard(n, moveList[u].0, moveList[u].1)
      invariant Snapshot(scoreTable, n) == Mask(scores, n, moveList[..k])
    {
      var row, col := moveList[k].0, moveList[k].1;
      if !(0 <= row < n && 0 <= col < n) {
        return false;
      }
      ghost var before := Snapshot(scoreTable, n);
      scoreTable[row, col] := -1;
      SameTables(Snapshot(scoreTable, n), Strike(before, n, row, col), n);
      MaskStep(scores, n, moveList[..k], row, col);
      assert moveList[..k + 1] == moveList[..k] + [(row, col)];
      assert Snapshot(scoreTable, n) == Mask(scores, n, moveList[..k + 1]);
      k := k + 1;
    }
    assert moveList[..k] == moveList;
    return true;
  }

  /** The row-major scan of getHighestMoveCoord over a table whose contents are t. */
  method Scan(board: array2<Stone>, scoreTable: array2<int>, n: nat, ghost t: seq<seq<int>>) returns (goal: Coord)
    requires Square(board, n) && Square(scoreTable, n) && Shaped(t, n)
    requires forall a, b :: InBoard(n, a, b) ==> scoreTable[a, b] == t[a][b]
    ensures HighestIn(board, n, t, goal)
  {
    var maxScore := 0;
    var goalRow, goalCol := -1, -1;
    var i := 0;
    while i < n
      invariant 0 <= i <= n
      invariant ScanSoFar(board, n, t, goalRow, goalCol, maxScore, i, 0)
    {
      var j := 0;
      while j < n
        invariant 0 <= j <= n
        invariant ScanSoFar(board, n, t, goalRow, goalCol, maxScore, i, j)
      {
        if board[i, j] == Empty && scoreTable[i, j] > maxScore {
          maxScore := scoreTable[i, j];
          goalRow := i;
          goalCol := j;
        }
        j := j + 1;
      }
      ScanRowDone(board, n, t, goalRow, goalCol, maxScore, i);
      i := i + 1;
    }
    goal := (goalRow, goalCol);
    ScanDone(board, n, t, goalRow, goalCol, maxScore);
  }

  /**
   * What the scan knows once it has passed every cell before (i, j): the
   * goal is the first best candidate so far, or (-1, -1) with maxScore 0
   * when no candidate has been passed.
   */
  ghost predicate ScanSoFar(g: array2<Stone>, n: int, t: seq<seq<int>>, goalRow: int, goalCol: int, maxScore: int, i: int, j: int)
    requires Square(g, n) && Shaped(t, n)
    reads g
  {
    && ((goalRow, goalCol) == NoCoord ==> maxScore == 0)
    && ((goalRow, goalCol) != NoCoord ==>
          Candidate(g, n, t, goalRow, goalCol) && t[goalRow][goalCol] == maxScore && Before(goalRow, goalCol, i, j))
    && forall a, b :: Candidate(g, n, t, a, b) && Before(a, b, i, j) ==>
         t[a][b] <= maxScore && (Before(a, b, goalRow, goalCol) ==> t[a][b] < maxScore)
  }

  lemma ScanRowDone(g: array2<Stone>, n: int, t: seq<seq<int>>, goalRow: int, goalCol: int, maxScore: int, i: int)
    requires Square(g, n) && Shaped(t, n)
    requires ScanSoFar(g, n, t, goalRow, goalCol, maxScore, i, n)
    ensures ScanSoFar(g, n, t, goalRow, goalCol, maxScore, i + 1, 0)
  {
    forall a, b | Candidate(g, n, t, a, b) && Before(a, b, i + 1, 0)
      ensures Before(a, b, i, n)
    {
    }
  }

  lemma ScanDone(g: array2<Stone>, n: int, t: seq<seq<int>>, goalRow: int, goalCol: int, maxScore: int)
    requires Square(g, n) && Shaped(t, n)
    requires ScanSoFar(g, n, t, goalRow, goalCol, maxScore, n, 0)
    ensures HighestIn(g, n, t, (goalRow, goalCol))
  {
    forall a, b | Candidate(g, n, t, a, b)
      ensures Before(a, b, n, 0)
    {
    }
  }

  /** A candidate list grows by the highest cell of what is left. */
  lemma ChainExtend(g: array2<Stone>, n: int, ms: seq<Coord>, m: Coord)
    requires Square(g, n) && Chain(g, n, ms) && IsHighest(g, n, ms, m)
    ensures Chain(g, n, ms + [m])
  {
    forall k | 0 <= k < |ms| + 1
      ensures IsHighest(g, n, (ms + [m])[..k], (ms + [m])[k])
    {
      if k < |ms| {
        assert (ms + [m])[..k] == ms[..k];
      } else {
        assert (ms + [m])[..k] == ms;
      }
    }
  }

  /** The "none found" answer is the only off-board answer of the scan. */
  lemma HighestOffBoard(g: array2<Stone>, n: int, listed: seq<Coord>, m: Coord)
    requires Square(g, n) && IsHighest(g, n, listed, m) && !InBoard(n, m.0, m.1)
    ensures m == NoCoord
  {
  }

  /**
   * A list whose entries are all on the board except perhaps the last, and
   * which has an entry off the board, ends in the "none found" answer.
   */
  lemma FailedRound(g: array2<Stone>, n: int, ms: seq<Coord>)
    requires Square(g, n) && Chain(g, n, ms)
    requires forall k :: 0 <= k < |ms| - 1 ==> InBoard(n, ms[k].0, ms[k].1)
    requires exists k :: 0 <= k < |ms| && !InBoard(n, ms[k].0, ms[k].1)
    ensures 0 < |ms| && ms[|ms| - 1] == NoCoord
  {
    var last := |ms| - 1;
    assert !InBoard(n, ms[last].0, ms[last].1);
    assert IsHighest(g, n, ms[..last], ms[last]);
    HighestOffBoard(g, n, ms[..last], ms[last]);
  }

  /**
   * The candidate list: one highest cell per candidate the level allows,
   * each found with the cells before it struck out. After a "none found"
   * answer the next round fails.
   */
  method GenerateMoveList(board: array2<Stone>, n: nat, level: Level) returns (r: Outcome<seq<Coord>, Fault>)
    requires Square(board, n)
    ensures r.Ok? ==> |r.value| == LevelCount(level) && Chain(board, n, r.value)
    ensures r.Ok? ==> forall k :: 0 <= k < |r.value| - 1 ==> r.value[k] != NoCoord
    ensures r.Fail? ==> exists ms :: Chain(board, n, ms) && 0 < |ms| < LevelCount(level) && ms[|ms| - 1] == NoCoord
  {
    var moveList: seq<Coord> := [];
    var counter := 0;
    while counter < LevelCount(level)
      invariant 0 <= counter <= LevelCount(level) && |moveList| == counter
      invariant Chain(board, n, moveList)
      invariant forall k :: 0 <= k < |moveList| - 1 ==> InBoard(n, moveList[k].0, moveList[k].1)
    {
      var moveCoord := GetHighestMoveCoord(moveList, board, n);
      if moveCoord.Fail? {
        FailedRound(board, n, moveList);
        assert Chain(board, n, moveList) && 0 < |moveList| < LevelCount(level);
        return Fail(IndexOutOfBounds);
      }
      ChainExtend(board, n, moveList, moveCoord.value);
      moveList := moveList + [moveCoord.value];
      counter := counter + 1;
    }
    r := Ok(moveList);
  }

  /**
   * A successful move list and a failing one cannot both exist for the same
   * board: a list that ends in (-1, -1) early forces that answer into every
   * longer list at the same place.
   */
  lemma {:induction false} FailForcesEarlyNone(g: array2<Stone>, n: int, ms: seq<Coord>, short: seq<Coord>)
    requires Square(g, n) && Chain(g, n, ms) && Chain(g, n, short)
    requires 0 < |short| < |ms| && short[|short| - 1] == NoCoord
    ensures exists k :: 0 <= k < |ms| - 1 && ms[k] == NoCoord
  {
    ChainPrefix(g, n, ms, |short|);
    ChainUnique(g, n, ms[..|short|], short);
    assert ms[|short| - 1] == NoCoord;
  }

  /** The move getMove plays for candidate m: none when m is off the board. */
  function Play(m: Coord, n: int, color: Stone): (move: Option<Move>)
    ensures move.Some? <==> InBoard(n, m.0, m.1)
    ensures move.Some? ==> move.value == Move(m.0, m.1, color)
  {
    if m.0 > -1 && m.1 > -1 && m.0 < n && m.1 < n then Some(Move(m.0, m.1, color)) else None
  }

  /**
   * The computer's move on the configuration's board: candidate number
   * pick (the random index, 0 <= pick < the list's length) of the
   * candidate list, as a stone of the player's colour.
   */
  method GetMove(player: Player, config: GameConfiguration, pick: int) returns (r: Outcome<Option<Move>, Fault>)
    requires player.kind.Computer? && config.Valid()
    requires 0 <= pick < LevelCount(player.kind.level)
    ensures r.Ok? ==> exists ms :: |ms| == LevelCount(player.kind.level) && Chain(config.chessBoard.grid, config.chessBoard.size, ms)
                                   && (forall k :: 0 <= k < |ms| - 1 ==> ms[k] != NoCoord)
                                   && r.value == Play(ms[pick], config.chessBoard.size, player.color)
    ensures r.Ok? && r.value.Some? ==>
              InBoard(config.chessBoard.size, r.value.value.row, r.value.value.col)
              && config.chessBoard.grid[r.value.value.row, r.value.value.col] == Empty
              && r.value.value.stone == player.color
    ensures r.Fail? ==> exists ms :: Chain(config.chessBoard.grid, config.chessBoard.size, ms)
                                     && 0 < |ms| < LevelCount(player.kind.level) && ms[|ms| - 1] == NoCoord
  {
    var board := config.chessBoard.grid;
    var boardSize := config.chessBoard.size;
    var moveList := GenerateMoveList(board, boardSize, player.kind.level);
    if moveList.Fail? {
      return Fail(moveList.error);
    }
    var pickedMove := moveList.value[pick];
    var computerMove := Play(pickedMove, boardSize, player.color);
    if computerMove.Some? {
      assert IsHighest(board, boardSize, moveList.value[..pick], pickedMove);
    }
    return Ok(computerMove);
  }

  // ---------------------------------------------------------------------
  // The opening move

  ghost predicate EmptyBoard(g: array2<Stone>, n: int)
    requires Square(g, n)
    reads g
  {
    forall a, b :: InBoard(n, a, b) ==> g[a, b] == Empty
  }

  /** On an empty board every window is an empty window (score 7). */
  lemma EmptyWindowScore(g: array2<Stone>, n: int, x: Axis, r: int, c: int)
    requires Square(g, n) && EmptyBoard(g, n) && WindowOnBoard(n, x, r, c)
    ensures WindowScore(g, n, x, r, c) == TupleScore(0, 0) == 7
  {
    assert InBoard(n, CellRow(x, r, 1), CellCol(x, c, 1));
    assert InBoard(n, CellRow(x, r, 2), CellCol(x, c, 2));
    assert InBoard(n, CellRow(x, r, 3), CellCol(x, c, 3));
  }

  /** On an empty board each window through (a, b) that lies on the board adds 7. */
  lemma EmptyTerm(g: array2<Stone>, n: int, x: Axis, a: int, b: int, t: int)
    requires Square(g, n) && EmptyBoard(g, n) && 0 <= t < 5
    ensures 0 <= Term(g, n, x, a, b, All(), t) <= 7
    ensures 4 <= a < n - 4 && 4 <= b < n - 4 ==> Term(g, n, x, a, b, All(), t) == 7
  {
    var r := Step(a, -DR(x), t);
    var c := Step(b, -DC(x), t);
    if WindowOnBoard(n, x, r, c) {
      EmptyWindowScore(g, n, x, r, c);
    }
  }

  /** On an empty board an axis adds 7 per window on the board through (a, b): at most 35. */
  lemma EmptyAxisSum(g: array2<Stone>, n: int, x: Axis, a: int, b: int)
    requires Square(g, n) && EmptyBoard(g, n)
    ensures 0 <= AxisSum(g, n, x, a, b, All()) <= 35
    ensures 4 <= a < n - 4 && 4 <= b < n - 4 ==> AxisSum(g, n, x, a, b, All()) == 35
  {
    EmptyTerm(g, n, x, a, b, 0);
    EmptyTerm(g, n, x, a, b, 1);
    EmptyTerm(g, n, x, a, b, 2);
    EmptyTerm(g, n, x, a, b, 3);
    EmptyTerm(g, n, x, a, b, 4);
  }

  /** On an empty board a cell scores its base value plus 7 per window through it. */
  lemma EmptyScore(g: array2<Stone>, n: int, a: int, b: int)
    requires Square(g, n) && EmptyBoard(g, n)
    ensures BaseScore(n, a, b) <= ExpectedScore(g, n, a, b) <= BaseScore(n, a, b) + 140
    ensures 4 <= a < n - 4 && 4 <= b < n - 4 ==> ExpectedScore(g, n, a, b) == BaseScore(n, a, b) + 140
  {
    EmptyAxisSum(g, n, Horizontal, a, b);
    EmptyAxisSum(g, n, Vertical, a, b);
    EmptyAxisSum(g, n, Diagonal, a, b);
    EmptyAxisSum(g, n, AntiDiagonal, a, b);
  }

  /** On an odd board only the centre is n / 2 away from every edge. */
  lemma CentreFarthest(n: int, a: int, b: int)
    requires n % 2 == 1 && InBoard(n, a, b)
    ensures BaseScore(n, a, b) <= n / 2
    ensures (a, b) != (n / 2, n / 2) ==> BaseScore(n, a, b) < n / 2
  {
    BaseScoreIsEdgeDistance(n, a, b);
  }

  /**
   * On an empty odd board of size 9 or more the centre is the best cell:
   * it is farthest from every edge and lies in all twenty windows it can.
   */
  lemma EmptyBoardCentre(g: array2<Stone>, n: int)
    requires Square(g, n) && EmptyBoard(g, n) && n % 2 == 1 && n >= 9
    ensures IsHighest(g, n, [], (n / 2, n / 2))
  {
    var mid := n / 2;
    var t := Mask(Scores(g, n), n, []);
    EmptyScore(g, n, mid, mid);
    BaseScoreIsEdgeDistance(n, mid, mid);
    assert t[mid][mid] == mid + 140;
    forall a, b | Candidate(g, n, t, a, b) && (a, b) != (mid, mid)
      ensures t[a][b] < t[mid][mid]
    {
      EmptyScore(g, n, a, b);
      CentreFarthest(n, a, b);
    }
  }

  /** So the hardest level always opens in the centre of such a board. */
  lemma HardOpensInCentre(g: array2<Stone>, n: int, ms: seq<Coord>)
    requires Square(g, n) && EmptyBoard(g, n) && n % 2 == 1 && n >= 9
    requires Chain(g, n, ms) && |ms| == LevelCount(Hard)
    ensures ms == [(n / 2, n / 2)]
  {
    EmptyBoardCentre(g, n);
    assert [(n / 2, n / 2)][..0] == [];
    ChainUnique(g, n, ms, [(n / 2, n / 2)]);
  }
}
