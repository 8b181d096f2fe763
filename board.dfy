/**
 * The 6 x 7 grid of a room and the gravity rule of a move.
 *
 * A board is a sequence of rows; row 0 is the top and row 5 the bottom.
 * A cell holds 0 when it is empty and 1 or 2 for the mark of the first or
 * second player.
 */
module Board {

  const Rows: int := 6
  const Cols: int := 7
  const Empty: int := 0

  type Grid = seq<seq<int>>

  /** The grid has six rows of seven cells each. */
  predicate IsGrid(b: Grid) {
    |b| == Rows && forall r :: 0 <= r < Rows ==> |b[r]| == Cols
  }

  /** (x, y) names a cell, x being the column and y the row. */
  predicate InBounds(x: int, y: int) {
    0 <= x < Cols && 0 <= y < Rows
  }

  predicate IsCellValue(v: int) {
    v == Empty || v == 1 || v == 2
  }

  /** Every cell is empty or holds one of the two marks. */
  predicate WellFormedBoard(b: Grid) {
    IsGrid(b) && forall r, c :: 0 <= r < Rows && 0 <= c < Cols ==> IsCellValue(b[r][c])
  }

  /** No mark floats: below an occupied cell every cell of its column is occupied. */
  predicate Settled(b: Grid)
    requires IsGrid(b)
  {
    forall r, r', c :: 0 <= r <= r' < Rows && 0 <= c < Cols && b[r][c] != Empty ==> b[r'][c] != Empty
  }

  /** The board of a new room: every cell empty. */
  function EmptyBoard(): (b: Grid)
    ensures WellFormedBoard(b) && Settled(b)
    ensures forall r, c :: 0 <= r < Rows && 0 <= c < Cols ==> b[r][c] == Empty
  {
    seq(Rows, _ => seq(Cols, _ => Empty))
  }

  /**
   * The largest row index at most `top` whose cell in column `col` is empty,
   * or -1 when rows 0..top of that column are all occupied.
   */
  function EmptyRowAtOrAbove(b: Grid, col: int, top: int): (row: int)
    requires IsGrid(b) && 0 <= col < Cols && -1 <= top < Rows
    ensures -1 <= row <= top
    ensures row >= 0 ==> b[row][col] == Empty
    ensures forall r :: row < r <= top ==> b[r][col] != Empty
    decreases top + 1
  {
    if top < 0 then -1
    else if b[top][col] == Empty then top
    else EmptyRowAtOrAbove(b, col, top - 1)
  }

  /**
   * Where a mark dropped into column `col` lands: the empty cell with the
   * largest row index, or -1 when the column is full.
   */
  function LowestEmptyRow(b: Grid, col: int): (row: int)
    requires IsGrid(b) && 0 <= col < Cols
    ensures -1 <= row < Rows
    ensures row >= 0 ==> b[row][col] == Empty
    ensures forall r :: row < r < Rows ==> b[r][col] != Empty
    ensures row == -1 <==> forall r :: 0 <= r < Rows ==> b[r][col] != Empty
  {
    EmptyRowAtOrAbove(b, col, Rows - 1)
  }

  /** The scan of make_move: rows from the bottom (5) up to the top (0), stopping at the first empty cell. */
  method DropRow(b: Grid, col: int) returns (row: int)
    requires IsGrid(b) && 0 <= col < Cols
    ensures row == LowestEmptyRow(b, col)
  {
    row := Rows - 1;
    while row >= 0 && b[row][col] != Empty
      invariant -1 <= row < Rows
      invariant forall r :: row < r < Rows ==> b[r][col] != Empty
    {
      row := row - 1;
    }
  }

  /** The board with cell (row, col) set to `mark` and every other cell as it was. */
  function Place(b: Grid, row: int, col: int, mark: int): (b': Grid)
    requires IsGrid(b) && InBounds(col, row)
    ensures IsGrid(b')
    ensures b'[row][col] == mark
    ensures forall r, c :: 0 <= r < Rows && 0 <= c < Cols && (r != row || c != col) ==> b'[r][c] == b[r][c]
  {
    b[row := b[row][col := mark]]
  }

  /**
   * Dropping a mark where gravity puts it keeps the board well formed and
   * settled, and the cell it fills was empty: no occupied cell is overwritten.
   */
  lemma DropKeepsBoard(b: Grid, col: int, mark: int)
    requires WellFormedBoard(b) && Settled(b) && 0 <= col < Cols
    requires LowestEmptyRow(b, col) >= 0 && (mark == 1 || mark == 2)
    ensures var row := LowestEmptyRow(b, col);
            b[row][col] == Empty && WellFormedBoard(Place(b, row, col, mark)) && Settled(Place(b, row, col, mark))
  {
  }
}
