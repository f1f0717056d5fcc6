/**
 * Local line detection: from the stone just placed, count the run of equal
 * stones along each of the four axes and classify the longest run. A run of
 * exactly five wins for the mover; six or more (an overline) is a draw.
 */
module Lines {
  import opened Pieces

  const WinCount: nat := 5

  /** The t-th cell from (r, c) along (dr, dc) holds stone s. */
  predicate Matches(g: array2<Stone>, r: int, c: int, dr: int, dc: int, s: Stone, t: int)
    reads g
  {
    InGrid(g, Step(r, dr, t), Step(c, dc, t)) && g[Step(r, dr, t), Step(c, dc, t)] == s
  }

  /**
   * The number of consecutive cells equal to s met when walking from (r, c)
   * along (dr, dc), starting with the i-th cell and stopping at the first
   * cell that differs or lies off the board.
   */
  function Run(g: array2<Stone>, r: int, c: int, dr: int, dc: int, s: Stone, i: nat): nat
    requires InGrid(g, r, c) && IsStep(dr, dc)
    reads g
    decreases g.Length0 + g.Length1 - i
  {
    if Matches(g, r, c, dr, dc, s, i) then 1 + Run(g, r, c, dr, dc, s, i + 1) else 0
  }

  /** The cells i .. i+k-1 along the ray hold s and cell i+k does not. */
  ghost predicate RunOf(g: array2<Stone>, r: int, c: int, dr: int, dc: int, s: Stone, i: nat, k: nat)
    reads g
  {
    (forall t :: i <= t < i + k ==> Matches(g, r, c, dr, dc, s, t)) && !Matches(g, r, c, dr, dc, s, i + k)
  }

  /** Run counts exactly the stretch of equal stones that RunOf describes. */
  lemma {:induction false} RunCharacterised(g: array2<Stone>, r: int, c: int, dr: int, dc: int, s: Stone, i: nat, k: nat)
    requires InGrid(g, r, c) && IsStep(dr, dc)
    ensures Run(g, r, c, dr, dc, s, i) == k <==> RunOf(g, r, c, dr, dc, s, i, k)
    decreases k
  {
    if k == 0 {
    } else if Matches(g, r, c, dr, dc, s, i) {
      RunCharacterised(g, r, c, dr, dc, s, i + 1, k - 1);
      if RunOf(g, r, c, dr, dc, s, i + 1, k - 1) {
        assert RunOf(g, r, c, dr, dc, s, i, k);
      }
      if RunOf(g, r, c, dr, dc, s, i, k) {
        assert RunOf(g, r, c, dr, dc, s, i + 1, k - 1);
      }
    } else {
      assert !RunOf(g, r, c, dr, dc, s, i, k);
    }
  }

  /** The length of the line through (r, c) along one axis, the cell itself included. */
  function AxisCount(g: array2<Stone>, r: int, c: int, dr: int, dc: int, s: Stone): nat
    requires InGrid(g, r, c) && IsStep(dr, dc)
    reads g
  {
    1 + Run(g, r, c, dr, dc, s, 1) + Run(g, r, c, -dr, -dc, s, 1)
  }

  function Max(a: int, b: int): int
  {
    if a < b then b else a
  }

  /** The longest line through the move over the four axes. */
  function MaxCount(g: array2<Stone>, m: Move): nat
    requires InGrid(g, m.row, m.col)
    reads g
  {
    Max(Max(AxisCount(g, m.row, m.col, 1, 0, m.stone), AxisCount(g, m.row, m.col, 0, 1, m.stone)),
        Max(AxisCount(g, m.row, m.col, 1, 1, m.stone), AxisCount(g, m.row, m.col, -1, 1, m.stone)))
  }

  /** Classification of the longest line: overline draws, five wins for the mover. */
  function LineOutcome(maxCount: int, stone: Stone): Result
  {
    if maxCount > WinCount then Draw
    else if maxCount == WinCount then (if stone == Black then BlackWin else WhiteWin)
    else Continue
  }

  /** The result of placing m, judged from the lines through m alone. */
  function WinningLine(g: array2<Stone>, m: Move): Result
    requires InGrid(g, m.row, m.col)
    reads g
  {
    LineOutcome(MaxCount(g, m), m.stone)
  }

  /**
   * One counting loop of the line check: walk from (row, col) along
   * (dr, dc) while the next cell is on the board, adding one to the count
   * for each equal stone and stopping at the first different one.
   */
  method CountDirection(board: array2<Stone>, row: int, col: int, dr: int, dc: int, stone: Stone, count0: int)
    returns (count: int)
    requires InGrid(board, row, col) && IsStep(dr, dc)
    ensures count == count0 + Run(board, row, col, dr, dc, stone, 1)
  {
    count := count0;
    var i := 1;
    while InGrid(board, Step(row, dr, i), Step(col, dc, i))
      invariant 1 <= i
      invariant count + Run(board, row, col, dr, dc, stone, i) == count0 + Run(board, row, col, dr, dc, stone, 1)
      decreases board.Length0 + board.Length1 - i
    {
      if board[Step(row, dr, i), Step(col, dc, i)] == stone {
        count := count + 1;
      } else {
        break;
      }
      i := i + 1;
    }
  }

  /** The board holds k black stones at (0, 0) .. (0, k - 1) and nothing else. */
  ghost predicate OnlyTopRow(g: array2<Stone>, k: nat)
    reads g
  {
    forall a, b :: InGrid(g, a, b) ==> g[a, b] == (if a == 0 && b < k then Black else Empty)
  }

  /**
   * A horizontal line of k black stones along the top edge, judged from any
   * of its stones: five wins for Black, six or more is a draw, fewer play on.
   */
  lemma TopRowLine(g: array2<Stone>, k: nat, c: nat)
    requires g.Length0 >= 2 && k <= g.Length1 && c < k
    requires OnlyTopRow(g, k)
    ensures WinningLine(g, Move(0, c, Black)) == if k > 5 then Draw else if k == 5 then BlackWin else Continue
  {
    RunCharacterised(g, 0, c, 0, 1, Black, 1, k - 1 - c);
    RunCharacterised(g, 0, c, 0, -1, Black, 1, c);
    assert AxisCount(g, 0, c, 0, 1, Black) == k;
    assert !Matches(g, 0, c, 1, 0, Black, 1) && !Matches(g, 0, c, -1, 0, Black, 1);
    assert !Matches(g, 0, c, 1, 1, Black, 1) && !Matches(g, 0, c, -1, -1, Black, 1);
    assert !Matches(g, 0, c, -1, 1, Black, 1) && !Matches(g, 0, c, 1, -1, Black, 1);
  }
}
