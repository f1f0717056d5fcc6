/**
 * The scoring model behind the computer opponent. A window is a run of
 * five consecutive cells along one of four axes; each window on the board
 * is scored from its black and white stone counts, and a cell's score is
 * its distance-to-edge base value plus the scores of every window on the
 * board that contains it.
 */
module Windows {
  import opened Pieces

  datatype Axis = Horizontal | Vertical | Diagonal | AntiDiagonal

  /** Row step of an axis: windows run left to right, top to bottom, down-right, up-right. */
  function DR(x: Axis): int
  {
    match x
    case Horizontal => 0
    case Vertical => 1
    case Diagonal => 1
    case AntiDiagonal => -1
  }

  function DC(x: Axis): int
  {
    if x == Vertical then 0 else 1
  }

  /** Cell t (0 .. 4) of the window of axis x whose first cell is (r, c). */
  function CellRow(x: Axis, r: int, t: int): int
  {
    Step(r, DR(x), t)
  }

  function CellCol(x: Axis, c: int, t: int): int
  {
    Step(c, DC(x), t)
  }

  /** All five cells of the window lie on the n-by-n board. */
  predicate WindowOnBoard(n: int, x: Axis, r: int, c: int)
  {
    InBoard(n, r, c) && InBoard(n, CellRow(x, r, 4), CellCol(x, c, 4))
  }

  /** (a, b) is one of the five cells of the window of axis x anchored at (r, c). */
  predicate InWindow(x: Axis, r: int, c: int, a: int, b: int)
  {
    match x
    case Horizontal => a == r && c <= b <= c + 4
    case Vertical => b == c && r <= a <= r + 4
    case Diagonal => a - r == b - c && 0 <= a - r <= 4
    case AntiDiagonal => r - a == b - c && 0 <= b - c <= 4
  }

  function Hit(g: array2<Stone>, a: int, b: int, s: Stone): nat
    requires InGrid(g, a, b)
    reads g
  {
    if g[a, b] == s then 1 else 0
  }

  /** The number of stones s among the window's five cells. */
  function StoneCount(g: array2<Stone>, n: int, x: Axis, r: int, c: int, s: Stone): nat
    requires Square(g, n) && WindowOnBoard(n, x, r, c)
    reads g
  {
    Hit(g, CellRow(x, r, 0), CellCol(x, c, 0), s) + Hit(g, CellRow(x, r, 1), CellCol(x, c, 1), s)
    + Hit(g, CellRow(x, r, 2), CellCol(x, c, 2), s) + Hit(g, CellRow(x, r, 3), CellCol(x, c, 3), s)
    + Hit(g, CellRow(x, r, 4), CellCol(x, c, 4), s)
  }

  /**
   * The score of a window holding numOfBlack black and numOfWhite white
   * stones. Mixed windows are dead (0), empty ones weak (7); one-colour
   * windows rise steeply with the count, white ones more so; -1 marks a
   * count no window of five can hold alongside a game still in progress.
   */
  function TupleScore(numOfBlack: int, numOfWhite: int): (score: int)
    ensures score == -1 <==>
              !(numOfBlack > 0 && numOfWhite > 0) && !(numOfBlack == 0 && numOfWhite == 0)
              && !(1 <= numOfBlack <= 4) && !(1 <= numOfWhite <= 4)
    ensures 0 <= numOfBlack <= 4 && 0 <= numOfWhite <= 4 ==> score >= 0
    ensures -1 <= score <= 800000
  {
    if numOfBlack > 0 && numOfWhite > 0 then 0
    else if numOfBlack == 0 && numOfWhite == 0 then 7
    else if numOfBlack == 1 then 15
    else if numOfBlack == 2 then 400
    else if numOfBlack == 3 then 1800
    else if numOfBlack == 4 then 100000
    else if numOfWhite == 1 then 35
    else if numOfWhite == 2 then 800
    else if numOfWhite == 3 then 15000
    else if numOfWhite == 4 then 800000
    else -1
  }

  /**
   * Among windows one colour can still complete, more stones score more, and
   * k white stones always outscore k black ones; a dead window scores below
   * every live one.
   */
  lemma TupleScoreOrder(k: int)
    requires 1 <= k <= 4
    ensures TupleScore(0, k) > TupleScore(k, 0) > TupleScore(0, 0) > TupleScore(k, 1)
    ensures k < 4 ==> TupleScore(k + 1, 0) > TupleScore(k, 0) && TupleScore(0, k + 1) > TupleScore(0, k)
  {
  }

  function WindowScore(g: array2<Stone>, n: int, x: Axis, r: int, c: int): int
    requires Square(g, n) && WindowOnBoard(n, x, r, c)
    reads g
  {
    TupleScore(StoneCount(g, n, x, r, c, Black), StoneCount(g, n, x, r, c, White))
  }

  /**
   * The t-th window of axis x containing (a, b) is anchored t steps back
   * from (a, b); it contributes its score when it lies on the board and
   * P selects it.
   */
  function Term(g: array2<Stone>, n: int, x: Axis, a: int, b: int, P: (int, int) -> bool, t: int): int
    requires Square(g, n)
    reads g
  {
    var r := Step(a, -DR(x), t);
    var c := Step(b, -DC(x), t);
    if WindowOnBoard(n, x, r, c) && P(r, c) then WindowScore(g, n, x, r, c) else 0
  }

  /** The scores of the windows of axis x that contain (a, b) and satisfy P. */
  function AxisSum(g: array2<Stone>, n: int, x: Axis, a: int, b: int, P: (int, int) -> bool): int
    requires Square(g, n)
    reads g
  {
    Term(g, n, x, a, b, P, 0) + Term(g, n, x, a, b, P, 1) + Term(g, n, x, a, b, P, 2)
    + Term(g, n, x, a, b, P, 3) + Term(g, n, x, a, b, P, 4)
  }

  /**
   * The base value of cell (i, j) as the score table is first filled: the
   * board is cut into quadrants at mid = n / 2, and each quadrant measures
   * the distance to its own two nearest edges.
   */
  function BaseScore(n: int, i: int, j: int): int
  {
    var mid := n / 2;
    var maxIdx := n - 1;
    if i <= mid && j <= mid then (if i < j then i else j)
    else if i > mid && j <= mid then (if maxIdx - i < j then maxIdx - i else j)
    else if i <= mid && j > mid then (if i < maxIdx - j then i else maxIdx - j)
    else (if maxIdx - i < maxIdx - j then maxIdx - i else maxIdx - j)
  }

  function Min(a: int, b: int): int
  {
    if a < b then a else b
  }

  /** The distance from (i, j) to the nearest edge of an n-by-n board. */
  function EdgeDistance(n: int, i: int, j: int): int
  {
    Min(Min(i, j), Min(n - 1 - i, n - 1 - j))
  }

  /** On odd boards the quadrant rule gives each cell its distance to the nearest edge. */
  lemma BaseScoreIsEdgeDistance(n: int, i: int, j: int)
    requires n % 2 == 1 && InBoard(n, i, j)
    ensures BaseScore(n, i, j) == EdgeDistance(n, i, j)
  {
  }

  /** On even boards it does not: the cell just past the middle gets one too many. */
  lemma BaseScoreEvenBoard()
    ensures BaseScore(10, 5, 5) == 5 && EdgeDistance(10, 5, 5) == 4
  {
  }

  /** Every window on the board selected. */
  function All(): (int, int) -> bool
  {
    (r: int, c: int) => true
  }

  /** No window selected. */
  function NoWindow(): (int, int) -> bool
  {
    (r: int, c: int) => false
  }

  /** A cell's score with the windows chosen per axis by PH, PV, PD and PA. */
  function Total(g: array2<Stone>, n: int, a: int, b: int,
                 PH: (int, int) -> bool, PV: (int, int) -> bool,
                 PD: (int, int) -> bool, PA: (int, int) -> bool): int
    requires Square(g, n)
    reads g
  {
    BaseScore(n, a, b) + AxisSum(g, n, Horizontal, a, b, PH) + AxisSum(g, n, Vertical, a, b, PV)
    + AxisSum(g, n, Diagonal, a, b, PD) + AxisSum(g, n, AntiDiagonal, a, b, PA)
  }

  /**
   * The score the heuristic gives cell (a, b): its base value plus the
   * score of every window on the board that contains it, each window once.
   */
  function ExpectedScore(g: array2<Stone>, n: int, a: int, b: int): int
    requires Square(g, n)
    reads g
  {
    Total(g, n, a, b, All(), All(), All(), All())
  }

  /**
   * Selecting one more window (r0, c0) adds its score to exactly the cells
   * it contains and leaves every other cell's sum as it was.
   */
  lemma AddWindow(g: array2<Stone>, n: int, x: Axis, a: int, b: int,
                  P1: (int, int) -> bool, P2: (int, int) -> bool, r0: int, c0: int)
    requires Square(g, n) && WindowOnBoard(n, x, r0, c0)
    requires !P1(r0, c0) && P2(r0, c0)
    requires forall r, c :: (r, c) != (r0, c0) ==> P2(r, c) == P1(r, c)
    ensures AxisSum(g, n, x, a, b, P2) ==
            AxisSum(g, n, x, a, b, P1) + (if InWindow(x, r0, c0, a, b) then WindowScore(g, n, x, r0, c0) else 0)
  {
    var w := WindowScore(g, n, x, r0, c0);
    var t := if !InWindow(x, r0, c0, a, b) then 0 else if x == Horizontal || x == AntiDiagonal then b - c0 else a - r0;
    forall u | 0 <= u < 5
      ensures Term(g, n, x, a, b, P2, u) ==
              Term(g, n, x, a, b, P1, u) + (if InWindow(x, r0, c0, a, b) && u == t then w else 0)
    {
    }
  }

  /** Two selections that agree on the windows of the board give the same sum. */
  lemma AxisSumCongruent(g: array2<Stone>, n: int, x: Axis, a: int, b: int, P: (int, int) -> bool, Q: (int, int) -> bool)
    requires Square(g, n)
    requires forall r, c :: WindowOnBoard(n, x, r, c) ==> P(r, c) == Q(r, c)
    ensures AxisSum(g, n, x, a, b, P) == AxisSum(g, n, x, a, b, Q)
  {
  }

  lemma AxisSumNone(g: array2<Stone>, n: int, x: Axis, a: int, b: int)
    requires Square(g, n)
    ensures AxisSum(g, n, x, a, b, NoWindow()) == 0
  {
  }

  /** One window adds between -1 and 800000 to a cell. */
  lemma TermRange(g: array2<Stone>, n: int, x: Axis, a: int, b: int, P: (int, int) -> bool, t: int)
    requires Square(g, n)
    ensures -1 <= Term(g, n, x, a, b, P, t) <= 800000
  {
  }

  /**
   * Every score stays far inside a 32-bit int: a cell lies in at most
   * twenty windows, each adding at most 800000 and at least -1.
   */
  lemma ScoreRange(g: array2<Stone>, n: int, a: int, b: int)
    requires Square(g, n) && InBoard(n, a, b)
    ensures -20 <= ExpectedScore(g, n, a, b) <= n + 16000000
  {
    BaseScoreRange(n, a, b);
    AxisSumRange(g, n, Horizontal, a, b);
    AxisSumRange(g, n, Vertical, a, b);
    AxisSumRange(g, n, Diagonal, a, b);
    AxisSumRange(g, n, AntiDiagonal, a, b);
  }

  lemma AxisSumRange(g: array2<Stone>, n: int, x: Axis, a: int, b: int)
    requires Square(g, n)
    ensures -5 <= AxisSum(g, n, x, a, b, All()) <= 4000000
  {
    TermRange(g, n, x, a, b, All(), 0);
    TermRange(g, n, x, a, b, All(), 1);
    TermRange(g, n, x, a, b, All(), 2);
    TermRange(g, n, x, a, b, All(), 3);
    TermRange(g, n, x, a, b, All(), 4);
  }

  lemma BaseScoreRange(n: int, a: int, b: int)
    requires InBoard(n, a, b)
    ensures 0 <= BaseScore(n, a, b) <= n
  {
  }
}
