/**
 * The computer opponent: fill a score table from the board (base values,
 * then every window of five added to its cells), take the K best empty
 * cells one after another, and play one of them chosen by an index.
 */
module Heuristic {
  import opened Pieces
  import opened Windows

  /** How many candidates each level draws its move from. */
  function LevelCount(level: Level): (k: nat)
    ensures 1 <= k <= 3
    ensures k == 1 <==> level == Hard
    ensures level == Easy ==> k == 3
    ensures level == Medium ==> k == 2
  {
    match level
    case Easy => 3
    case Medium => 2
    case Hard => 1
  }

  // ---------------------------------------------------------------------
  // Walking five cells from a start cell along a unit step

  /** The cells 0 .. len - 1 from (r, c) along (dr, dc) are all on the board. */
  predicate RayOnBoard(n: int, r: int, c: int, dr: int, dc: int, len: int)
  {
    IsStep(dr, dc) && InBoard(n, r, c)
    && (len > 0 ==> InBoard(n, Step(r, dr, len - 1), Step(c, dc, len - 1)))
  }

  /** The number of stones s among the first len cells of the walk. */
  function RayCount(g: array2<Stone>, n: int, r: int, c: int, dr: int, dc: int, s: Stone, len: nat): nat
    requires Square(g, n) && RayOnBoard(n, r, c, dr, dc, len)
    reads g
  {
    if len == 0 then 0
    else RayCount(g, n, r, c, dr, dc, s, len - 1)
         + Hit(g, Step(r, dr, len - 1), Step(c, dc, len - 1), s)
  }

  /** How many steps from (r, c) along (dr, dc) the cell (a, b) would be. */
  function RayIndex(r: int, c: int, dr: int, dc: int, a: int, b: int): int
  {
    if dr > 0 then a - r else if dr < 0 then r - a else if dc > 0 then b - c else c - b
  }

  /** (a, b) is one of the first len cells of the walk. */
  predicate OnRay(r: int, c: int, dr: int, dc: int, a: int, b: int, len: int)
  {
    var t := RayIndex(r, c, dr, dc, a, b);
    0 <= t < len && Step(r, dr, t) == a && Step(c, dc, t) == b
  }

  /** The walk that each of the six window helpers makes covers the window (x, r0, c0). */
  predicate WalksWindow(r: int, c: int, dr: int, dc: int, x: Axis, r0: int, c0: int)
  {
    || (dr, dc, x, r0, c0) == (0, 1, Horizontal, r, c)
    || (dr, dc, x, r0, c0) == (1, 0, Vertical, r, c)
    || (dr, dc, x, r0, c0) == (1, 1, Diagonal, r, c)
    || (dr, dc, x, r0, c0) == (-1, -1, Diagonal, r - 4, c - 4)
    || (dr, dc, x, r0, c0) == (-1, 1, AntiDiagonal, r, c)
    || (dr, dc, x, r0, c0) == (1, -1, AntiDiagonal, r + 4, c - 4)
  }

  /** The count over five cells, written out cell by cell. */
  lemma RayCountFive(g: array2<Stone>, n: int, r: int, c: int, dr: int, dc: int, s: Stone)
    requires Square(g, n) && RayOnBoard(n, r, c, dr, dc, 5)
    ensures RayOnBoard(n, r, c, dr, dc, 4) && RayOnBoard(n, r, c, dr, dc, 1)
    ensures RayCount(g, n, r, c, dr, dc, s, 5) ==
      Hit(g, Step(r, dr, 0), Step(c, dc, 0), s) + Hit(g, Step(r, dr, 1), Step(c, dc, 1), s)
      + Hit(g, Step(r, dr, 2), Step(c, dc, 2), s) + Hit(g, Step(r, dr, 3), Step(c, dc, 3), s)
      + Hit(g, Step(r, dr, 4), Step(c, dc, 4), s)
  {
    assert RayOnBoard(n, r, c, dr, dc, 4) && RayOnBoard(n, r, c, dr, dc, 3);
    assert RayOnBoard(n, r, c, dr, dc, 2) && RayOnBoard(n, r, c, dr, dc, 1);
    assert RayOnBoard(n, r, c, dr, dc, 0);
    assert RayCount(g, n, r, c, dr, dc, s, 1) == Hit(g, Step(r, dr, 0), Step(c, dc, 0), s);
    assert RayCount(g, n, r, c, dr, dc, s, 2) ==
      RayCount(g, n, r, c, dr, dc, s, 1) + Hit(g, Step(r, dr, 1), Step(c, dc, 1), s);
    assert RayCount(g, n, r, c, dr, dc, s, 3) ==
      RayCount(g, n, r, c, dr, dc, s, 2) + Hit(g, Step(r, dr, 2), Step(c, dc, 2), s);
    assert RayCount(g, n, r, c, dr, dc, s, 4) ==
      RayCount(g, n, r, c, dr, dc, s, 3) + Hit(g, Step(r, dr, 3), Step(c, dc, 3), s);
  }

  /** A walk over a window meets the window's cells and counts its stones. */
  lemma WalkIsWindow(g: array2<Stone>, n: int, r: int, c: int, dr: int, dc: int, x: Axis, r0: int, c0: int)
    requires Square(g, n) && WindowOnBoard(n, x, r0, c0) && WalksWindow(r, c, dr, dc, x, r0, c0)
    ensures RayOnBoard(n, r, c, dr, dc, 5)
    ensures forall a, b :: OnRay(r, c, dr, dc, a, b, 5) <==> InWindow(x, r0, c0, a, b)
    ensures RayCount(g, n, r, c, dr, dc, Black, 5) == StoneCount(g, n, x, r0, c0, Black)
    ensures RayCount(g, n, r, c, dr, dc, White, 5) == StoneCount(g, n, x, r0, c0, White)
  {
    assert RayOnBoard(n, r, c, dr, dc, 5);
    RayCountFive(g, n, r, c, dr, dc, Black);
    RayCountFive(g, n, r, c, dr, dc, White);
  }

  /**
   * Counts the black and white stones on five cells from (r, c) along
   * (dr, dc), scores them with TupleScore and adds that score to each of
   * the five cells; no other entry of the table changes.
   */
  method AccumulateRay(board: array2<Stone>, score: array2<int>, n: int, r: int, c: int, dr: int, dc: int)
    requires Square(board, n) && Square(score, n) && RayOnBoard(n, r, c, dr, dc, 5)
    modifies score
    ensures forall a, b :: InBoard(n, a, b) ==>
              score[a, b] == old(score[a, b]) +
                (if OnRay(r, c, dr, dc, a, b, 5)
                 then TupleScore(RayCount(board, n, r, c, dr, dc, Black, 5), RayCount(board, n, r, c, dr, dc, White, 5))
                 else 0)
  {
    var numOfBlack := 0;
    var numOfWhite := 0;
    var t := 0;
    while t < 5
      invariant 0 <= t <= 5
      invariant numOfBlack == RayCount(board, n, r, c, dr, dc, Black, t)
      invariant numOfWhite == RayCount(board, n, r, c, dr, dc, White, t)
    {
      var cell := board[Step(r, dr, t), Step(c, dc, t)];
      if cell == Black {
        numOfBlack := numOfBlack + 1;
      } else if cell == White {
        numOfWhite := numOfWhite + 1;
      }
      t := t + 1;
    }
    var tempScore := TupleScore(numOfBlack, numOfWhite);
    t := 0;
    while t < 5
      invariant 0 <= t <= 5
      invariant forall a, b :: InBoard(n, a, b) ==>
                  score[a, b] == old(score[a, b]) + (if OnRay(r, c, dr, dc, a, b, t) then tempScore else 0)
    {
      score[Step(r, dr, t), Step(c, dc, t)] := score[Step(r, dr, t), Step(c, dc, t)] + tempScore;
      t := t + 1;
    }
  }

  /** t is an n-by-n table. */
  predicate Shaped(t: seq<seq<int>>, n: int)
  {
    |t| == n && forall a :: 0 <= a < n ==> |t[a]| == n
  }

  /** What adding window (x, r0, c0) contributes to cell (a, b). */
  function Bump(g: array2<Stone>, n: int, x: Axis, r0: int, c0: int, a: int, b: int): int
    requires Square(g, n) && WindowOnBoard(n, x, r0, c0)
    reads g
  {
    if InWindow(x, r0, c0, a, b) then WindowScore(g, n, x, r0, c0) else 0
  }

  /** The table t with the score of window (x, r0, c0) added to each of its five cells. */
  ghost function Added(t: seq<seq<int>>, g: array2<Stone>, n: int, x: Axis, r0: int, c0: int): (u: seq<seq<int>>)
    requires Square(g, n) && WindowOnBoard(n, x, r0, c0)
    requires Shaped(t, n)
    reads g
    ensures Shaped(u, n)
    ensures forall a, b :: InBoard(n, a, b) ==> u[a][b] == t[a][b] + Bump(g, n, x, r0, c0, a, b)
  {
    seq(n, a requires 0 <= a < n reads g =>
      seq(n, b requires 0 <= b < n reads g => t[a][b] + Bump(g, n, x, r0, c0, a, b)))
  }

  lemma SnapshotAdded(score: array2<int>, g: array2<Stone>, n: int, x: Axis, r0: int, c0: int, before: seq<seq<int>>)
    requires Square(g, n) && Square(score, n) && WindowOnBoard(n, x, r0, c0)
    requires Shaped(before, n)
    requires forall a, b :: InBoard(n, a, b) ==> score[a, b] == before[a][b] + Bump(g, n, x, r0, c0, a, b)
    ensures Snapshot(score, n) == Added(before, g, n, x, r0, c0)
  {
    SameTables(Snapshot(score, n), Added(before, g, n, x, r0, c0), n);
  }

  /** Scores the horizontal window (i, j) .. (i, j + 4). */
  method CountLeftRightStones(i: int, j: int, score: array2<int>, board: array2<Stone>, n: int)
    requires Square(board, n) && Square(score, n) && WindowOnBoard(n, Horizontal, i, j)
    modifies score
    ensures forall a, b :: InBoard(n, a, b) ==>
              score[a, b] == old(score[a, b]) + Bump(board, n, Horizontal, i, j, a, b)
    ensures Snapshot(score, n) == Added(old(Snapshot(score, n)), board, n, Horizontal, i, j)
  {
    ghost var before := Snapshot(score, n);
    WalkIsWindow(board, n, i, j, 0, 1, Horizontal, i, j);
    AccumulateRay(board, score, n, i, j, 0, 1);
    SnapshotAdded(score, board, n, Horizontal, i, j, before);
  }

  /** Scores the vertical window (j, i) .. (j + 4, i). */
  method CountTopBottomStones(i: int, j: int, score: array2<int>, board: array2<Stone>, n: int)
    requires Square(board, n) && Square(score, n) && WindowOnBoard(n, Vertical, j, i)
    modifies score
    ensures forall a, b :: InBoard(n, a, b) ==>
              score[a, b] == old(score[a, b]) + Bump(board, n, Vertical, j, i, a, b)
    ensures Snapshot(score, n) == Added(old(Snapshot(score, n)), board, n, Vertical, j, i)
  {
    ghost var before := Snapshot(score, n);
    WalkIsWindow(board, n, j, i, 1, 0, Vertical, j, i);
    AccumulateRay(board, score, n, j, i, 1, 0);
    SnapshotAdded(score, board, n, Vertical, j, i, before);
  }

  /** Scores the down-right window (k, j) .. (k + 4, j + 4). */
  method CountTLBRStones(k: int, j: int, score: array2<int>, board: array2<Stone>, n: int)
    requires Square(board, n) && Square(score, n) && WindowOnBoard(n, Diagonal, k, j)
    modifies score
    ensures forall a, b :: InBoard(n, a, b) ==>
              score[a, b] == old(score[a, b]) + Bump(board, n, Diagonal, k, j, a, b)
    ensures Snapshot(score, n) == Added(old(Snapshot(score, n)), board, n, Diagonal, k, j)
  {
    ghost var before := Snapshot(score, n);
    WalkIsWindow(board, n, k, j, 1, 1, Diagonal, k, j);
    AccumulateRay(board, score, n, k, j, 1, 1);
    SnapshotAdded(score, board, n, Diagonal, k, j, before);
  }

  /** Scores the down-right window ending at (k, j), walking it up-left from (k, j). */
  method CountTLBRStonesReversed(k: int, j: int, score: array2<int>, board: array2<Stone>, n: int)
    requires Square(board, n) && Square(score, n) && WindowOnBoard(n, Diagonal, k - 4, j - 4)
    modifies score
    ensures forall a, b :: InBoard(n, a, b) ==>
              score[a, b] == old(score[a, b]) + Bump(board, n, Diagonal, k - 4, j - 4, a, b)
    ensures Snapshot(score, n) == Added(old(Snapshot(score, n)), board, n, Diagonal, k - 4, j - 4)
  {
    ghost var before := Snapshot(score, n);
    WalkIsWindow(board, n, k, j, -1, -1, Diagonal, k - 4, j - 4);
    AccumulateRay(board, score, n, k, j, -1, -1);
    SnapshotAdded(score, board, n, Diagonal, k - 4, j - 4, before);
  }

  /** Scores the up-right window (k, j) .. (k - 4, j + 4). */
  method CountBLTRStones(k: int, j: int, score: array2<int>, board: array2<Stone>, n: int)
    requires Square(board, n) && Square(score, n) && WindowOnBoard(n, AntiDiagonal, k, j)
    modifies score
    ensures forall a, b :: InBoard(n, a, b) ==>
              score[a, b] == old(score[a, b]) + Bump(board, n, AntiDiagonal, k, j, a, b)
    ensures Snapshot(score, n) == Added(old(Snapshot(score, n)), board, n, AntiDiagonal, k, j)
  {
    ghost var before := Snapshot(score, n);
    WalkIsWindow(board, n, k, j, -1, 1, AntiDiagonal, k, j);
    AccumulateRay(board, score, n, k, j, -1, 1);
    SnapshotAdded(score, board, n, AntiDiagonal, k, j, before);
  }

  /** Scores the up-right window ending at (k, j), walking it down-left from (k, j). */
  method CountBLTRStonesReversed(k: int, j: int, score: array2<int>, board: array2<Stone>, n: int)
    requires Square(board, n) && Square(score, n) && WindowOnBoard(n, AntiDiagonal, k + 4, j - 4)
    modifies score
    ensures forall a, b :: InBoard(n, a, b) ==>
              score[a, b] == old(score[a, b]) + Bump(board, n, AntiDiagonal, k + 4, j - 4, a, b)
    ensures Snapshot(score, n) == Added(old(Snapshot(score, n)), board, n, AntiDiagonal, k + 4, j - 4)
  {
    ghost var before := Snapshot(score, n);
    WalkIsWindow(board, n, k, j, 1, -1, AntiDiagonal, k + 4, j - 4);
    AccumulateRay(board, score, n, k, j, 1, -1);
    SnapshotAdded(score, board, n, AntiDiagonal, k + 4, j - 4, before);
  }

  // ---------------------------------------------------------------------
  // The score table

  /** A fresh table holding every cell's base value. */
  method InitScoreTable(board: array2<Stone>, n: nat) returns (scoreTable: array2<int>)
    ensures fresh(scoreTable) && Square(scoreTable, n)
    ensures forall a, b :: InBoard(n, a, b) ==> scoreTable[a, b] == BaseScore(n, a, b)
  {
    scoreTable := new int[n, n];
    var i := 0;
    while i < n
      invariant 0 <= i <= n
      invariant forall a, b :: 0 <= a < i && 0 <= b < n ==> scoreTable[a, b] == BaseScore(n, a, b)
    {
      var j := 0;
      while j < n
        invariant 0 <= j <= n
        invariant forall a, b :: 0 <= a < i && 0 <= b < n ==> scoreTable[a, b] == BaseScore(n, a, b)
        invariant forall b :: 0 <= b < j ==> scoreTable[i, b] == BaseScore(n, i, b)
      {
        var mid := n / 2;
        var min := 0;
        var maxIdx := n - 1;
        if i <= mid && j <= mid {
          min := if i < j then i else j;
        } else if i > mid && j <= mid {
          min := if maxIdx - i < j then maxIdx - i else j;
        } else if i <= mid && j > mid {
          min := if i < maxIdx - j then i else maxIdx - j;
        } else {
          min := if maxIdx - i < maxIdx - j then maxIdx - i else maxIdx - j;
        }
        scoreTable[i, j] := min;
        j := j + 1;
      }
      i := i + 1;
    }
  }

  /** Horizontal windows taken so far: rows before i, then row i left of column j. */
  function RowsBefore(i: int, j: int): (int, int) -> bool
  {
    (r: int, c: int) => r < i || (r == i && c < j)
  }

  /** Vertical windows taken so far: columns before i, then column i above row j. */
  function ColumnsBefore(i: int, j: int): (int, int) -> bool
  {
    (r: int, c: int) => c < i || (c == i && r < j)
  }

  /** Down-right windows of the bottom-left triangle taken so far (r - c is the line). */
  function LowerDiagonalsBefore(i: int, j: int): (int, int) -> bool
  {
    (r: int, c: int) => (0 <= r - c < i) || (r - c == i && c < j)
  }

  /** Down-right windows taken so far once the top-right triangle is walked back from its end. */
  function UpperDiagonalsBefore(n: int, i: int, j: int): (int, int) -> bool
  {
    (r: int, c: int) => r - c > i - n + 1 || (r - c == i - n + 1 && c > j - 4)
  }

  /** Up-right windows of the top-left triangle taken so far (r + c is the line). */
  function UpperAntiDiagonalsBefore(n: int, i: int, j: int): (int, int) -> bool
  {
    (r: int, c: int) => (i < r + c <= n - 1) || (r + c == i && c < j)
  }

  /** Up-right windows taken so far once the bottom-right triangle is walked back from its end. */
  function LowerAntiDiagonalsBefore(n: int, i: int, j: int): (int, int) -> bool
  {
    (r: int, c: int) => r + c < i + n - 1 || (r + c == i + n - 1 && c > j - 4)
  }

  // Each sweep step selects exactly one more window; each sweep boundary
  // changes nothing on the board.

  lemma RowsStep(i: int, j: int)
    ensures !RowsBefore(i, j)(i, j) && RowsBefore(i, j + 1)(i, j)
    ensures forall r, c :: (r, c) != (i, j) ==> RowsBefore(i, j + 1)(r, c) == RowsBefore(i, j)(r, c)
  {
  }

  lemma ColumnsStep(i: int, j: int)
    ensures !ColumnsBefore(i, j)(j, i) && ColumnsBefore(i, j + 1)(j, i)
    ensures forall r, c :: (r, c) != (j, i) ==> ColumnsBefore(i, j + 1)(r, c) == ColumnsBefore(i, j)(r, c)
  {
  }

  lemma LowerDiagonalsStep(i: int, j: int, k: int)
    requires 0 <= i && k == i + j
    ensures !LowerDiagonalsBefore(i, j)(k, j) && LowerDiagonalsBefore(i, j + 1)(k, j)
    ensures forall r, c :: (r, c) != (k, j) ==> LowerDiagonalsBefore(i, j + 1)(r, c) == LowerDiagonalsBefore(i, j)(r, c)
  {
  }

  lemma UpperDiagonalsStep(n: int, i: int, j: int, k: int)
    requires k - j == i - n + 1
    ensures !UpperDiagonalsBefore(n, i, j)(k - 4, j - 4) && UpperDiagonalsBefore(n, i, j - 1)(k - 4, j - 4)
    ensures forall r, c :: (r, c) != (k - 4, j - 4) ==>
              UpperDiagonalsBefore(n, i, j - 1)(r, c) == UpperDiagonalsBefore(n, i, j)(r, c)
  {
  }

  lemma UpperAntiDiagonalsStep(n: int, i: int, j: int, k: int)
    requires i <= n - 1 && k + j == i
    ensures !UpperAntiDiagonalsBefore(n, i, j)(k, j) && UpperAntiDiagonalsBefore(n, i, j + 1)(k, j)
    ensures forall r, c :: (r, c) != (k, j) ==>
              UpperAntiDiagonalsBefore(n, i, j + 1)(r, c) == UpperAntiDiagonalsBefore(n, i, j)(r, c)
  {
  }

  lemma LowerAntiDiagonalsStep(n: int, i: int, j: int, k: int)
    requires k + j == i + n - 1
    ensures !LowerAntiDiagonalsBefore(n, i, j)(k + 4, j - 4) && LowerAntiDiagonalsBefore(n, i, j - 1)(k + 4, j - 4)
    ensures forall r, c :: (r, c) != (k + 4, j - 4) ==>
              LowerAntiDiagonalsBefore(n, i, j - 1)(r, c) == LowerAntiDiagonalsBefore(n, i, j)(r, c)
  {
  }

  /** Which windows of each axis have been added to the table so far. */
  datatype Selection = Selection(h: (int, int) -> bool, v: (int, int) -> bool,
                                 d: (int, int) -> bool, a: (int, int) -> bool)
  {
    /** The selection of axis x. */
    function Pick(x: Axis): (int, int) -> bool
    {
      match x
      case Horizontal => h
      case Vertical => v
      case Diagonal => d
      case AntiDiagonal => a
    }

    /** The same selection with axis x's replaced by Q. */
    function With(x: Axis, Q: (int, int) -> bool): Selection
    {
      match x
      case Horizontal => this.(h := Q)
      case Vertical => this.(v := Q)
      case Diagonal => this.(d := Q)
      case AntiDiagonal => this.(a := Q)
    }
  }

  function SelectedTotal(g: array2<Stone>, n: int, a: int, b: int, sel: Selection): int
    requires Square(g, n)
    reads g
  {
    Total(g, n, a, b, sel.h, sel.v, sel.d, sel.a)
  }

  /** Replacing axis x's selection changes a cell's total by that axis's sum alone. */
  lemma ReplacedTotal(g: array2<Stone>, n: int, a: int, b: int, sel: Selection, x: Axis, Q: (int, int) -> bool)
    requires Square(g, n)
    ensures SelectedTotal(g, n, a, b, sel.With(x, Q)) ==
            SelectedTotal(g, n, a, b, sel) - AxisSum(g, n, x, a, b, sel.Pick(x)) + AxisSum(g, n, x, a, b, Q)
  {
  }

  /** The contents of an n-by-n score table, as a value. */
  ghost function Snapshot(score: array2<int>, n: int): (t: seq<seq<int>>)
    requires Square(score, n)
    reads score
    ensures Shaped(t, n)
    ensures forall a, b :: InBoard(n, a, b) ==> t[a][b] == score[a, b]
  {
    seq(n, a requires 0 <= a < n reads score => seq(n, b requires 0 <= b < n reads score => score[a, b]))
  }

  /** Two n-by-n tables with the same entries are the same table. */
  lemma SameTables(s: seq<seq<int>>, t: seq<seq<int>>, n: int)
    requires Shaped(s, n) && Shaped(t, n)
    requires forall a, b :: InBoard(n, a, b) ==> s[a][b] == t[a][b]
    ensures s == t
  {
    forall a | 0 <= a < n
      ensures s[a] == t[a]
    {
      assert forall b :: 0 <= b < n ==> s[a][b] == t[a][b];
    }
  }

  /** The table holds, cell by cell, the Total under the given window selection. */
  ghost predicate Scored(board: array2<Stone>, score: array2<int>, n: int, sel: Selection)
    reads board, score
  {
    Square(board, n) && Square(score, n) && Snapshot(score, n) == Table(board, n, sel)
  }

  lemma ScoredCells(board: array2<Stone>, score: array2<int>, n: int, sel: Selection)
    requires Square(board, n) && Square(score, n)
    ensures Scored(board, score, n, sel) <==>
              forall a, b :: InBoard(n, a, b) ==> score[a, b] == SelectedTotal(board, n, a, b, sel)
  {
    if forall a, b :: InBoard(n, a, b) ==> score[a, b] == SelectedTotal(board, n, a, b, sel) {
      SameTables(Snapshot(score, n), Table(board, n, sel), n);
    }
  }

  // Where a sweep's inner loop stops, the line it walked holds no further
  // window on the board; where a sweep stops, it has taken every window of
  // its triangle.

  lemma LowerDiagonalLineDone(n: int, i: int, j: int)
    requires 0 <= i && i + j == n - 4
    ensures forall r, c :: WindowOnBoard(n, Diagonal, r, c) ==>
              LowerDiagonalsBefore(i, j)(r, c) == LowerDiagonalsBefore(i + 1, 0)(r, c)
  {
  }

  lemma LowerDiagonalsDone(n: int, i: int)
    requires 0 <= i && n - 4 <= i && (i <= n - 4 || i == 0)
    ensures forall r, c :: WindowOnBoard(n, Diagonal, r, c) ==>
              LowerDiagonalsBefore(i, 0)(r, c) == UpperDiagonalsBefore(n, n - 2, n - 1)(r, c)
  {
  }

  lemma UpperDiagonalLineDone(n: int, i: int, j: int)
    requires i <= n - 2 && j == n + 2 - i
    ensures forall r, c :: WindowOnBoard(n, Diagonal, r, c) ==>
              UpperDiagonalsBefore(n, i, j)(r, c) == UpperDiagonalsBefore(n, i - 1, n - 1)(r, c)
  {
  }

  lemma UpperDiagonalsDone(n: int, i: int)
    requires i <= n - 2 && i < 4 && (i >= 3 || i == n - 2)
    ensures forall r, c :: WindowOnBoard(n, Diagonal, r, c) ==> UpperDiagonalsBefore(n, i, n - 1)(r, c) == All()(r, c)
  {
  }

  lemma UpperAntiDiagonalLineDone(n: int, i: int, j: int, k: int)
    requires i <= n - 1 && 0 <= j && 3 <= k && k + j == i && (j >= n - 4 || k < 4)
    ensures forall r, c :: WindowOnBoard(n, AntiDiagonal, r, c) ==>
              UpperAntiDiagonalsBefore(n, i, j)(r, c) == UpperAntiDiagonalsBefore(n, i - 1, 0)(r, c)
  {
  }

  lemma UpperAntiDiagonalsDone(n: int, i: int)
    requires i <= n - 1 && i < 4 && (i >= 3 || i == n - 1)
    ensures forall r, c :: WindowOnBoard(n, AntiDiagonal, r, c) ==>
              UpperAntiDiagonalsBefore(n, i, 0)(r, c) == LowerAntiDiagonalsBefore(n, 1, n - 1)(r, c)
  {
  }

  lemma LowerAntiDiagonalLineDone(n: int, i: int, j: int, k: int)
    requires 1 <= i && 3 <= j && i <= k <= n - 4 && k + j == i + n - 1 && (j < 4 || k >= n - 4)
    ensures forall r, c :: WindowOnBoard(n, AntiDiagonal, r, c) ==>
              LowerAntiDiagonalsBefore(n, i, j)(r, c) == LowerAntiDiagonalsBefore(n, i + 1, n - 1)(r, c)
  {
  }

  lemma LowerAntiDiagonalsDone(n: int, i: int)
    requires 1 <= i && n - 4 <= i && (i <= n - 4 || i == 1)
    ensures forall r, c :: WindowOnBoard(n, AntiDiagonal, r, c) ==> LowerAntiDiagonalsBefore(n, i, n - 1)(r, c) == All()(r, c)
  {
  }

  /** Every cell's Total under one selection, as a value that only the board determines. */
  ghost function Table(board: array2<Stone>, n: int, sel: Selection): (t: seq<seq<int>>)
    requires Square(board, n)
    reads board
    ensures Shaped(t, n)
    ensures forall a, b :: InBoard(n, a, b) ==> t[a][b] == SelectedTotal(board, n, a, b, sel)
  {
    seq(n, a requires 0 <= a < n reads board =>
      seq(n, b requires 0 <= b < n reads board => SelectedTotal(board, n, a, b, sel)))
  }

  /**
   * When a helper has added window (r0, c0) of axis x to a table that held
   * the Table `before` of the selection, the table is scored under the
   * selection that takes that window too.
   */
  lemma WindowAdded(board: array2<Stone>, score: array2<int>, n: int, x: Axis, r0: int, c0: int,
                    sel: Selection, P2: (int, int) -> bool, next: Selection, before: seq<seq<int>>)
    requires Square(board, n) && Square(score, n) && WindowOnBoard(n, x, r0, c0)
    requires before == Table(board, n, sel)
    requires Snapshot(score, n) == Added(before, board, n, x, r0, c0)
    requires !sel.Pick(x)(r0, c0) && P2(r0, c0)
    requires forall r, c :: (r, c) != (r0, c0) ==> P2(r, c) == sel.Pick(x)(r, c)
    requires next == sel.With(x, P2)
    ensures Scored(board, score, n, next)
  {
    forall a, b | InBoard(n, a, b)
      ensures score[a, b] == SelectedTotal(board, n, a, b, next)
    {
      assert score[a, b] == Added(before, board, n, x, r0, c0)[a][b];
      assert before[a][b] == SelectedTotal(board, n, a, b, sel);
      AddWindow(board, n, x, a, b, sel.Pick(x), P2, r0, c0);
      ReplacedTotal(board, n, a, b, sel, x, P2);
    }
    ScoredCells(board, score, n, next);
  }


  /** Replacing the selection of one axis by one that agrees on the board's windows keeps the table scored. */
  lemma Reselect(board: array2<Stone>, score: array2<int>, n: int, x: Axis, sel: Selection, Q: (int, int) -> bool, next: Selection)
    requires Scored(board, score, n, sel)
    requires forall r, c :: WindowOnBoard(n, x, r, c) ==> sel.Pick(x)(r, c) == Q(r, c)
    requires next == sel.With(x, Q)
    ensures Scored(board, score, n, next)
  {
    ScoredCells(board, score, n, sel);
    forall a, b | InBoard(n, a, b)
      ensures score[a, b] == SelectedTotal(board, n, a, b, next)
    {
      AxisSumCongruent(board, n, x, a, b, sel.Pick(x), Q);
      ReplacedTotal(board, n, a, b, sel, x, Q);
    }
    ScoredCells(board, score, n, next);
  }


  /**
   * The score table for the board: every cell holds its base value plus the
   * scores of all windows of five on the board that contain it, each window
   * counted once across the six sweeps.
   */
  method CalculateScores(board: array2<Stone>, n: nat) returns (score: array2<int>)
    requires Square(board, n)
    ensures fresh(score) && Square(score, n)
    ensures forall a, b :: InBoard(n, a, b) ==> score[a, b] == ExpectedScore(board, n, a, b)
  {
    score := InitScoreTable(board, n);
    forall a, b | InBoard(n, a, b)
      ensures score[a, b] == Total(board, n, a, b, RowsBefore(0, 0), ColumnsBefore(0, 0),
                                   LowerDiagonalsBefore(0, 0), UpperAntiDiagonalsBefore(n, n - 1, 0))
    {
      AxisSumCongruent(board, n, Horizontal, a, b, RowsBefore(0, 0), NoWindow());
      AxisSumCongruent(board, n, Vertical, a, b, ColumnsBefore(0, 0), NoWindow());
      AxisSumCongruent(board, n, Diagonal, a, b, LowerDiagonalsBefore(0, 0), NoWindow());
      AxisSumCongruent(board, n, AntiDiagonal, a, b, UpperAntiDiagonalsBefore(n, n - 1, 0), NoWindow());
      AxisSumNone(board, n, Horizontal, a, b);
      AxisSumNone(board, n, Vertical, a, b);
      AxisSumNone(board, n, Diagonal, a, b);
      AxisSumNone(board, n, AntiDiagonal, a, b);
    }
    ScoredCells(board, score, n, Selection(RowsBefore(0, 0), ColumnsBefore(0, 0),
                                           LowerDiagonalsBefore(0, 0), UpperAntiDiagonalsBefore(n, n - 1, 0)));
    ScoreRows(board, score, n);
    ScoreColumns(board, score, n);
    ScoreLowerDiagonals(board, score, n);
    ScoreUpperDiagonals(board, score, n);
    ScoreUpperAntiDiagonals(board, score, n);
    ScoreLowerAntiDiagonals(board, score, n);
    ScoredCells(board, score, n, Selection(All(), All(), All(), All()));
  }

  /** One step of the sweep below: the window running right from (i, j). */
  method ScoreRowWindow(board: array2<Stone>, score: array2<int>, n: nat, i: int, j: int, ghost PV: (int, int) -> bool, ghost PD: (int, int) -> bool, ghost PA: (int, int) -> bool)
    requires 0 <= i < n && 0 <= j < n - 4
    requires Scored(board, score, n, Selection(RowsBefore(i, j), PV, PD, PA))
    modifies score
    ensures Scored(board, score, n, Selection(RowsBefore(i, j + 1), PV, PD, PA))
  {
    ghost var before := Snapshot(score, n);
    CountLeftRightStones(i, j, score, board, n);
    RowsStep(i, j);
    WindowAdded(board, score, n, Horizontal, i, j, Selection(RowsBefore(i, j), PV, PD, PA), RowsBefore(i, j + 1), Selection(RowsBefore(i, j + 1), PV, PD, PA), before);
  }

  /** Left to right: adds every horizontal window. */
  method ScoreRows(board: array2<Stone>, score: array2<int>, n: nat)
    requires Scored(board, score, n, Selection(RowsBefore(0, 0), ColumnsBefore(0, 0), LowerDiagonalsBefore(0, 0), UpperAntiDiagonalsBefore(n, n - 1, 0)))
    modifies score
    ensures Scored(board, score, n, Selection(All(), ColumnsBefore(0, 0), LowerDiagonalsBefore(0, 0), UpperAntiDiagonalsBefore(n, n - 1, 0)))
  {
    ghost var PV, PD, PA := ColumnsBefore(0, 0), LowerDiagonalsBefore(0, 0), UpperAntiDiagonalsBefore(n, n - 1, 0);
    var i := 0;
    while i < n
      invariant 0 <= i <= n
      invariant Scored(board, score, n, Selection(RowsBefore(i, 0), PV, PD, PA))
    {
      var j := 0;
      while j < n - 4
        invariant 0 <= j && (j <= n - 4 || j == 0)
        invariant Scored(board, score, n, Selection(RowsBefore(i, j), PV, PD, PA))
      {
        ScoreRowWindow(board, score, n, i, j, PV, PD, PA);
        j := j + 1;
      }
      Reselect(board, score, n, Horizontal, Selection(RowsBefore(i, j), PV, PD, PA), RowsBefore(i + 1, 0), Selection(RowsBefore(i + 1, 0), PV, PD, PA));
      i := i + 1;
    }
    Reselect(board, score, n, Horizontal, Selection(RowsBefore(i, 0), PV, PD, PA), All(), Selection(All(), PV, PD, PA));
  }

  /** One step of the sweep below: the window running down from (j, i). */
  method ScoreColumnWindow(board: array2<Stone>, score: array2<int>, n: nat, i: int, j: int, ghost PD: (int, int) -> bool, ghost PA: (int, int) -> bool)
    requires 0 <= i < n && 0 <= j < n - 4
    requires Scored(board, score, n, Selection(All(), ColumnsBefore(i, j), PD, PA))
    modifies score
    ensures Scored(board, score, n, Selection(All(), ColumnsBefore(i, j + 1), PD, PA))
  {
    ghost var before := Snapshot(score, n);
    CountTopBottomStones(i, j, score, board, n);
    ColumnsStep(i, j);
    WindowAdded(board, score, n, Vertical, j, i, Selection(All(), ColumnsBefore(i, j), PD, PA), ColumnsBefore(i, j + 1), Selection(All(), ColumnsBefore(i, j + 1), PD, PA), before);
  }

  /** Top to bottom: adds every vertical window. */
  method ScoreColumns(board: array2<Stone>, score: array2<int>, n: nat)
    requires Scored(board, score, n, Selection(All(), ColumnsBefore(0, 0), LowerDiagonalsBefore(0, 0), UpperAntiDiagonalsBefore(n, n - 1, 0)))
    modifies score
    ensures Scored(board, score, n, Selection(All(), All(), LowerDiagonalsBefore(0, 0), UpperAntiDiagonalsBefore(n, n - 1, 0)))
  {
    ghost var PD, PA := LowerDiagonalsBefore(0, 0), UpperAntiDiagonalsBefore(n, n - 1, 0);
    var i := 0;
    while i < n
      invariant 0 <= i <= n
      invariant Scored(board, score, n, Selection(All(), ColumnsBefore(i, 0), PD, PA))
    {
      var j := 0;
      while j < n - 4
        invariant 0 <= j && (j <= n - 4 || j == 0)
        invariant Scored(board, score, n, Selection(All(), ColumnsBefore(i, j), PD, PA))
      {
        ScoreColumnWindow(board, score, n, i, j, PD, PA);
        j := j + 1;
      }
      Reselect(board, score, n, Vertical, Selection(All(), ColumnsBefore(i, j), PD, PA), ColumnsBefore(i + 1, 0), Selection(All(), ColumnsBefore(i + 1, 0), PD, PA));
      i := i + 1;
    }
    Reselect(board, score, n, Vertical, Selection(All(), ColumnsBefore(i, 0), PD, PA), All(), Selection(All(), All(), PD, PA));
  }

  /** One step of the sweep below: the window running down-right from (k, j). */
  method ScoreLowerDiagonalWindow(board: array2<Stone>, score: array2<int>, n: nat, i: int, j: int, k: int, ghost PA: (int, int) -> bool)
    requires 0 <= i && 0 <= j && k == i + j && k < n - 4
    requires Scored(board, score, n, Selection(All(), All(), LowerDiagonalsBefore(i, j), PA))
    modifies score
    ensures Scored(board, score, n, Selection(All(), All(), LowerDiagonalsBefore(i, j + 1), PA))
  {
    ghost var before := Snapshot(score, n);
    CountTLBRStones(k, j, score, board, n);
    LowerDiagonalsStep(i, j, k);
    WindowAdded(board, score, n, Diagonal, k, j, Selection(All(), All(), LowerDiagonalsBefore(i, j), PA), LowerDiagonalsBefore(i, j + 1), Selection(All(), All(), LowerDiagonalsBefore(i, j + 1), PA), before);
  }

  /** Top left to bottom right over the bottom-left triangle: lines r - c == i, i in [0, n - 5]. */
  method ScoreLowerDiagonals(board: array2<Stone>, score: array2<int>, n: nat)
    requires Scored(board, score, n, Selection(All(), All(), LowerDiagonalsBefore(0, 0), UpperAntiDiagonalsBefore(n, n - 1, 0)))
    modifies score
    ensures Scored(board, score, n, Selection(All(), All(), UpperDiagonalsBefore(n, n - 2, n - 1), UpperAntiDiagonalsBefore(n, n - 1, 0)))
  {
    ghost var PA := UpperAntiDiagonalsBefore(n, n - 1, 0);
    var i := 0;
    while i < n - 4
      invariant 0 <= i && (i <= n - 4 || i == 0)
      invariant Scored(board, score, n, Selection(All(), All(), LowerDiagonalsBefore(i, 0), PA))
    {
      var j, k := 0, i;
      while j < n - 4 && k < n - 4
        invariant 0 <= j && k == i + j && k <= n - 4
        invariant Scored(board, score, n, Selection(All(), All(), LowerDiagonalsBefore(i, j), PA))
      {
        ScoreLowerDiagonalWindow(board, score, n, i, j, k, PA);
        j, k := j + 1, k + 1;
      }
      LowerDiagonalLineDone(n, i, j);
      Reselect(board, score, n, Diagonal, Selection(All(), All(), LowerDiagonalsBefore(i, j), PA), LowerDiagonalsBefore(i + 1, 0), Selection(All(), All(), LowerDiagonalsBefore(i + 1, 0), PA));
      i := i + 1;
    }
    LowerDiagonalsDone(n, i);
    Reselect(board, score, n, Diagonal, Selection(All(), All(), LowerDiagonalsBefore(i, 0), PA), UpperDiagonalsBefore(n, n - 2, n - 1), Selection(All(), All(), UpperDiagonalsBefore(n, n - 2, n - 1), PA));
  }

  /** One step of the sweep below: the window climbing from (k, j) to (k - 4, j - 4). */
  method ScoreUpperDiagonalWindow(board: array2<Stone>, score: array2<int>, n: nat, i: int, j: int, k: int, ghost PA: (int, int) -> bool)
    requires 4 <= k < n && 4 <= j < n && k - j == i - n + 1
    requires Scored(board, score, n, Selection(All(), All(), UpperDiagonalsBefore(n, i, j), PA))
    modifies score
    ensures Scored(board, score, n, Selection(All(), All(), UpperDiagonalsBefore(n, i, j - 1), PA))
  {
    ghost var before := Snapshot(score, n);
    CountTLBRStonesReversed(k, j, score, board, n);
    UpperDiagonalsStep(n, i, j, k);
    WindowAdded(board, score, n, Diagonal, k - 4, j - 4, Selection(All(), All(), UpperDiagonalsBefore(n, i, j), PA), UpperDiagonalsBefore(n, i, j - 1), Selection(All(), All(), UpperDiagonalsBefore(n, i, j - 1), PA), before);
  }

  /** Bottom right to top left over the top-right triangle: lines r - c == i - (n - 1), i from n - 2 down to 4. */
  method ScoreUpperDiagonals(board: array2<Stone>, score: array2<int>, n: nat)
    requires Scored(board, score, n, Selection(All(), All(), UpperDiagonalsBefore(n, n - 2, n - 1), UpperAntiDiagonalsBefore(n, n - 1, 0)))
    modifies score
    ensures Scored(board, score, n, Selection(All(), All(), All(), UpperAntiDiagonalsBefore(n, n - 1, 0)))
  {
    ghost var PA := UpperAntiDiagonalsBefore(n, n - 1, 0);
    var i := n - 2;
    while i >= 4
      invariant i <= n - 2 && (i >= 3 || i == n - 2)
      invariant Scored(board, score, n, Selection(All(), All(), UpperDiagonalsBefore(n, i, n - 1), PA))
    {
      var j, k := n - 1, i;
      while j >= 4 && k >= 4
        invariant 3 <= k && k - j == i - n + 1 && j <= n - 1
        invariant Scored(board, score, n, Selection(All(), All(), UpperDiagonalsBefore(n, i, j), PA))
      {
        ScoreUpperDiagonalWindow(board, score, n, i, j, k, PA);
        j, k := j - 1, k - 1;
      }
      UpperDiagonalLineDone(n, i, j);
      Reselect(board, score, n, Diagonal, Selection(All(), All(), UpperDiagonalsBefore(n, i, j), PA), UpperDiagonalsBefore(n, i - 1, n - 1), Selection(All(), All(), UpperDiagonalsBefore(n, i - 1, n - 1), PA));
      i := i - 1;
    }
    UpperDiagonalsDone(n, i);
    Reselect(board, score, n, Diagonal, Selection(All(), All(), UpperDiagonalsBefore(n, i, n - 1), PA), All(), Selection(All(), All(), All(), PA));
  }

  /** One step of the sweep below: the window climbing from (k, j) to (k - 4, j + 4). */
  method ScoreUpperAntiDiagonalWindow(board: array2<Stone>, score: array2<int>, n: nat, i: int, j: int, k: int)
    requires i <= n - 1 && 4 <= k < n && 0 <= j < n - 4 && k + j == i
    requires Scored(board, score, n, Selection(All(), All(), All(), UpperAntiDiagonalsBefore(n, i, j)))
    modifies score
    ensures Scored(board, score, n, Selection(All(), All(), All(), UpperAntiDiagonalsBefore(n, i, j + 1)))
  {
    ghost var before := Snapshot(score, n);
    CountBLTRStones(k, j, score, board, n);
    UpperAntiDiagonalsStep(n, i, j, k);
    WindowAdded(board, score, n, AntiDiagonal, k, j, Selection(All(), All(), All(), UpperAntiDiagonalsBefore(n, i, j)), UpperAntiDiagonalsBefore(n, i, j + 1), Selection(All(), All(), All(), UpperAntiDiagonalsBefore(n, i, j + 1)), before);
  }

  /** Bottom left to top right over the top-left triangle: lines r + c == i, i from n - 1 down to 4. */
  method ScoreUpperAntiDiagonals(board: array2<Stone>, score: array2<int>, n: nat)
    requires Scored(board, score, n, Selection(All(), All(), All(), UpperAntiDiagonalsBefore(n, n - 1, 0)))
    modifies score
    ensures Scored(board, score, n, Selection(All(), All(), All(), LowerAntiDiagonalsBefore(n, 1, n - 1)))
  {
    var i := n - 1;
    while i >= 4
      invariant i <= n - 1 && (i >= 3 || i == n - 1)
      invariant Scored(board, score, n, Selection(All(), All(), All(), UpperAntiDiagonalsBefore(n, i, 0)))
    {
      var j, k := 0, i;
      while j < n - 4 && k >= 4
        invariant 0 <= j <= n - 4 && 3 <= k && k + j == i
        invariant Scored(board, score, n, Selection(All(), All(), All(), UpperAntiDiagonalsBefore(n, i, j)))
      {
        ScoreUpperAntiDiagonalWindow(board, score, n, i, j, k);
        j, k := j + 1, k - 1;
      }
      UpperAntiDiagonalLineDone(n, i, j, k);
      Reselect(board, score, n, AntiDiagonal, Selection(All(), All(), All(), UpperAntiDiagonalsBefore(n, i, j)), UpperAntiDiagonalsBefore(n, i - 1, 0), Selection(All(), All(), All(), UpperAntiDiagonalsBefore(n, i - 1, 0)));
      i := i - 1;
    }
    UpperAntiDiagonalsDone(n, i);
    Reselect(board, score, n, AntiDiagonal, Selection(All(), All(), All(), UpperAntiDiagonalsBefore(n, i, 0)), LowerAntiDiagonalsBefore(n, 1, n - 1), Selection(All(), All(), All(), LowerAntiDiagonalsBefore(n, 1, n - 1)));
  }

  /** One step of the sweep below: the window climbing from (k + 4, j - 4) to (k, j). */
  method ScoreLowerAntiDiagonalWindow(board: array2<Stone>, score: array2<int>, n: nat, i: int, j: int, k: int)
    requires 4 <= j <= n - 1 && 0 <= k < n - 4 && k + j == i + n - 1
    requires Scored(board, score, n, Selection(All(), All(), All(), LowerAntiDiagonalsBefore(n, i, j)))
    modifies score
    ensures Scored(board, score, n, Selection(All(), All(), All(), LowerAntiDiagonalsBefore(n, i, j - 1)))
  {
    ghost var before := Snapshot(score, n);
    CountBLTRStonesReversed(k, j, score, board, n);
    LowerAntiDiagonalsStep(n, i, j, k);
    WindowAdded(board, score, n, AntiDiagonal, k + 4, j - 4, Selection(All(), All(), All(), LowerAntiDiagonalsBefore(n, i, j)), LowerAntiDiagonalsBefore(n, i, j - 1), Selection(All(), All(), All(), LowerAntiDiagonalsBefore(n, i, j - 1)), before);
  }

  /** Top right to bottom left over the bottom-right triangle: lines r + c == i + (n - 1), i in [1, n - 5]. */
  method ScoreLowerAntiDiagonals(board: array2<Stone>, score: array2<int>, n: nat)
    requires Scored(board, score, n, Selection(All(), All(), All(), LowerAntiDiagonalsBefore(n, 1, n - 1)))
    modifies score
    ensures Scored(board, score, n, Selection(All(), All(), All(), All()))
  {
    var i := 1;
    while i < n - 4
      invariant 1 <= i && (i <= n - 4 || i == 1)
      invariant Scored(board, score, n, Selection(All(), All(), All(), LowerAntiDiagonalsBefore(n, i, n - 1)))
    {
      var j, k := n - 1, i;
      while j >= 4 && k < n - 4
        invariant 3 <= j <= n - 1 && i <= k <= n - 4 && k + j == i + n - 1
        invariant Scored(board, score, n, Selection(All(), All(), All(), LowerAntiDiagonalsBefore(n, i, j)))
      {
        ScoreLowerAntiDiagonalWindow(board, score, n, i, j, k);
        j, k := j - 1, k + 1;
      }
      LowerAntiDiagonalLineDone(n, i, j, k);
      Reselect(board, score, n, AntiDiagonal, Selection(All(), All(), All(), LowerAntiDiagonalsBefore(n, i, j)), LowerAntiDiagonalsBefore(n, i + 1, n - 1), Selection(All(), All(), All(), LowerAntiDiagonalsBefore(n, i + 1, n - 1)));
      i := i + 1;
    }
    LowerAntiDiagonalsDone(n, i);
    Reselect(board, score, n, AntiDiagonal, Selection(All(), All(), All(), LowerAntiDiagonalsBefore(n, i, n - 1)), All(), Selection(All(), All(), All(), All()));
  }
}
