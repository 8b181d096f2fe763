/**
 * check_win: does the mark just placed at (row, col) complete four in a row?
 *
 * The detector walks from the placed cell along each of four axes, counts
 * the contiguous cells that hold the mark in the positive and in the
 * negative direction, and reports a win when some axis totals four or more.
 * It is specified against FourInARow, which says directly that a window of
 * four cells on one axis, covering the placed cell, all hold the mark.
 */
module WinDetector {
  import opened Board

  /** The axes in the order the detector tries them: horizontal, vertical, diagonal down-right, diagonal up-right. */
  const Directions: seq<(int, int)> := [(1, 0), (0, 1), (1, 1), (1, -1)]

  /** A unit step along some axis (x is the column, y the row). */
  predicate IsStep(dx: int, dy: int) {
    -1 <= dx <= 1 && -1 <= dy <= 1 && (dx != 0 || dy != 0)
  }

  /** Cell (x, y) is on the board and holds `p`. */
  predicate Holds(b: Grid, x: int, y: int, p: int)
    requires IsGrid(b)
  {
    InBounds(x, y) && b[y][x] == p
  }

  /** How many more steps along (dx, dy) stay on the board from (x, y); the walk's termination measure. */
  function Steps(x: int, y: int, dx: int, dy: int): nat {
    if !InBounds(x, y) then 0
    else if dx == 1 then Cols - x
    else if dx == -1 then x + 1
    else if dy == 1 then Rows - y
    else y + 1
  }

  /** The number of contiguous cells holding `p` from (x, y) on, stepping (dx, dy). */
  function Run(b: Grid, x: int, y: int, dx: int, dy: int, p: int): nat
    requires IsGrid(b) && IsStep(dx, dy)
    decreases Steps(x, y, dx, dy)
  {
    if Holds(b, x, y, p) then 1 + Run(b, x + dx, y + dy, dx, dy, p) else 0
  }

  /** The detector's total for one axis: the placed cell plus both counts. */
  function AxisTotal(b: Grid, row: int, col: int, dx: int, dy: int, p: int): int
    requires IsGrid(b) && IsStep(dx, dy)
  {
    1 + (Run(b, col, row, dx, dy, p) - 1) + (Run(b, col, row, -dx, -dy, p) - 1)
  }

  /** Four cells from (x, y) on, stepping (dx, dy), are on the board and all hold `p`. */
  predicate Window(b: Grid, x: int, y: int, dx: int, dy: int, p: int)
    requires IsGrid(b)
  {
    Holds(b, x, y, p) && Holds(b, x + dx, y + dy, p) && Holds(b, x + 2 * dx, y + 2 * dy, p) && Holds(b, x + 3 * dx, y + 3 * dy, p)
  }

  /** One of the four windows along axis (dx, dy) that cover (col, row) is all `p`. */
  predicate LineOnAxis(b: Grid, row: int, col: int, dx: int, dy: int, p: int)
    requires IsGrid(b)
  {
    || Window(b, col, row, dx, dy, p)
    || Window(b, col - dx, row - dy, dx, dy, p)
    || Window(b, col - 2 * dx, row - 2 * dy, dx, dy, p)
    || Window(b, col - 3 * dx, row - 3 * dy, dx, dy, p)
  }

  /** Four in a row through (row, col): horizontally, vertically or on either diagonal. */
  predicate FourInARow(b: Grid, row: int, col: int, p: int)
    requires IsGrid(b)
  {
    || LineOnAxis(b, row, col, 1, 0, p)
    || LineOnAxis(b, row, col, 0, 1, p)
    || LineOnAxis(b, row, col, 1, 1, p)
    || LineOnAxis(b, row, col, 1, -1, p)
  }

  /** A run reaches k (k up to 4) exactly when the first k cells of the walk hold `p`. */
  lemma RunPrefixes(b: Grid, x: int, y: int, dx: int, dy: int, p: int)
    requires IsGrid(b) && IsStep(dx, dy)
    ensures Run(b, x, y, dx, dy, p) >= 1 <==> Holds(b, x, y, p)
    ensures Run(b, x, y, dx, dy, p) >= 2 <==> Holds(b, x, y, p) && Holds(b, x + dx, y + dy, p)
    ensures Run(b, x, y, dx, dy, p) >= 3 <==>
              Holds(b, x, y, p) && Holds(b, x + dx, y + dy, p) && Holds(b, x + 2 * dx, y + 2 * dy, p)
    ensures Run(b, x, y, dx, dy, p) >= 4 <==>
              Holds(b, x, y, p) && Holds(b, x + dx, y + dy, p) && Holds(b, x + 2 * dx, y + 2 * dy, p)
              && Holds(b, x + 3 * dx, y + 3 * dy, p)
  {
    var x1, y1 := x + dx, y + dy;
    var x2, y2 := x1 + dx, y1 + dy;
    var x3, y3 := x2 + dx, y2 + dy;
    assert Run(b, x, y, dx, dy, p) == if Holds(b, x, y, p) then 1 + Run(b, x1, y1, dx, dy, p) else 0;
    assert Run(b, x1, y1, dx, dy, p) == if Holds(b, x1, y1, p) then 1 + Run(b, x2, y2, dx, dy, p) else 0;
    assert Run(b, x2, y2, dx, dy, p) == if Holds(b, x2, y2, p) then 1 + Run(b, x3, y3, dx, dy, p) else 0;
    assert x2 == x + 2 * dx && y2 == y + 2 * dy && x3 == x + 3 * dx && y3 == y + 3 * dy;
  }

  /** The detector's test on one axis, total >= 4, holds exactly when a window of four on that axis covers the cell. */
  lemma AxisTotalMeansLine(b: Grid, row: int, col: int, dx: int, dy: int, p: int)
    requires IsGrid(b) && IsStep(dx, dy)
    ensures AxisTotal(b, row, col, dx, dy, p) >= 4 <==> LineOnAxis(b, row, col, dx, dy, p)
  {
    RunPrefixes(b, col, row, dx, dy, p);
    RunPrefixes(b, col, row, -dx, -dy, p);
  }

  /** count(dx, dy) of check_win: walk while on the board and on `p`; the cell count minus one. */
  method Count(b: Grid, row: int, col: int, dx: int, dy: int, p: int) returns (n: int)
    requires IsGrid(b) && IsStep(dx, dy)
    ensures n == Run(b, col, row, dx, dy, p) - 1
  {
    var cnt := 0;
    var x, y := col, row;
    while 0 <= x < Cols && 0 <= y < Rows && b[y][x] == p
      invariant cnt + Run(b, x, y, dx, dy, p) == Run(b, col, row, dx, dy, p)
      decreases Steps(x, y, dx, dy)
    {
      cnt := cnt + 1;
      x := x + dx;
      y := y + dy;
    }
    n := cnt - 1;
  }

  /** check_win: true exactly when the mark `p` at (row, col) lies in four in a row. */
  method CheckWin(b: Grid, row: int, col: int, p: int) returns (win: bool)
    requires IsGrid(b)
    ensures win == FourInARow(b, row, col, p)
  {
    for i := 0 to |Directions|
      invariant forall j :: 0 <= j < i ==> !LineOnAxis(b, row, col, Directions[j].0, Directions[j].1, p)
    {
      var (dx, dy) := Directions[i];
      var forward := Count(b, row, col, dx, dy, p);
      var backward := Count(b, row, col, -dx, -dy, p);
      AxisTotalMeansLine(b, row, col, dx, dy, p);
      if 1 + forward + backward >= 4 {
        return true;
      }
    }
    assert !LineOnAxis(b, row, col, Directions[0].0, Directions[0].1, p);
    assert !LineOnAxis(b, row, col, Directions[1].0, Directions[1].1, p);
    assert !LineOnAxis(b, row, col, Directions[2].0, Directions[2].1, p);
    assert !LineOnAxis(b, row, col, Directions[3].0, Directions[3].1, p);
    return false;
  }
}
