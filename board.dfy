/**
 * The game board: an N-by-N grid of stones with bounds-checked access and
 * the list of column letters used by the text coordinate form ("A7").
 */
module Boards {
  import opened Pieces

  /** Column letters run from 'A'; the alphabet bounds the board width. */
  const MaxSize: nat := 26

  /** The column letters of an n-wide board: 'A', 'B', ... */
  function ColumnLetters(n: nat): (letters: seq<char>)
    requires n <= MaxSize
    ensures |letters| == n
    ensures forall i :: 0 <= i < n ==> letters[i] as int == 'A' as int + i
    ensures forall ch :: ch in letters <==> 'A' <= ch && (ch as int) < 'A' as int + n
  {
    var letters := seq(n, i requires 0 <= i < n => ('A' as int + i) as char);
    assert forall ch :: 'A' <= ch && (ch as int) < 'A' as int + n ==> letters[ch as int - 'A' as int] == ch && ch in letters;
    letters
  }

  class Board {
    const size: nat
    const grid: array2<Stone>

    ghost predicate Valid()
      reads this
    {
      size <= MaxSize && grid.Length0 == size && grid.Length1 == size
    }

    /** A board whose cells all start out empty. */
    constructor (n: nat)
      requires n <= MaxSize
      ensures Valid() && size == n && fresh(grid)
      ensures forall r, c :: InBoard(n, r, c) ==> grid[r, c] == Empty
    {
      size := n;
      grid := new Stone[n, n]((r, c) => Empty);
    }

    /** Empties every cell (the start of a new game). */
    method InitBoard()
      requires Valid()
      modifies grid
      ensures forall r, c :: InBoard(size, r, c) ==> grid[r, c] == Empty
    {
      var i := 0;
      while i < size
        invariant 0 <= i <= size
        invariant forall r, c :: 0 <= r < i && 0 <= c < size ==> grid[r, c] == Empty
      {
        var j := 0;
        while j < size
          invariant 0 <= j <= size
          invariant forall r, c :: 0 <= r < i && 0 <= c < size ==> grid[r, c] == Empty
          invariant forall c :: 0 <= c < j ==> grid[i, c] == Empty
        {
          grid[i, j] := Empty;
          j := j + 1;
        }
        i := i + 1;
      }
    }

    function GetCoord(r: int, c: int): (s: Stone)
      requires Valid() && InBoard(size, r, c)
      reads this, grid
      ensures s == grid[r, c]
    {
      grid[r, c]
    }

    /** Writes one cell; every other cell keeps its stone. */
    method SetCoord(r: int, c: int, s: Stone)
      requires Valid() && InBoard(size, r, c)
      modifies grid
      ensures grid[r, c] == s
      ensures forall a, b :: InBoard(size, a, b) && (a, b) != (r, c) ==> grid[a, b] == old(grid[a, b])
    {
      grid[r, c] := s;
    }

    function GetAlphabetList(): (letters: seq<char>)
      requires Valid()
      reads this
      ensures letters == ColumnLetters(size)
    {
      ColumnLetters(size)
    }
  }
}
