/** The five-column grid the covers are laid out in. */
module Grid {

  /** Number of columns (`num_cols`, `num_columns`). */
  const Columns: nat := 5

  datatype Cell = Cell(row: int, col: int)

  /** A cell of some row of the five-column grid. */
  predicate InColumns(c: Cell) {
    0 <= c.row && 0 <= c.col < Columns
  }

  /** Position of a cell in reading order (row by row, left to right). */
  function Index(c: Cell): int {
    c.row * Columns + c.col
  }

  /** The cell of the `i`-th record: row `i div 5`, column `i mod 5`. */
  function Place(i: nat): (c: Cell)
    ensures InColumns(c)
    ensures Index(c) == i
  {
    Cell(i / Columns, i % Columns)
  }

  /** Every cell of the grid is the place of exactly its reading-order index. */
  lemma PlaceOfIndex(c: Cell)
    requires InColumns(c)
    ensures Index(c) >= 0 && Place(Index(c)) == c
  {
  }

  /** Later records are placed later in reading order, so no two share a cell. */
  lemma PlaceRowMajor(i: nat, j: nat)
    requires i < j
    ensures Index(Place(i)) < Index(Place(j))
    ensures Place(i).row <= Place(j).row
  {
  }

  /** `QGridLayout.rowCount()` after `n` records are placed: at least one row. */
  function RowCount(n: nat): (k: nat)
    ensures k >= 1
    ensures forall i :: 0 <= i < n ==> Place(i).row < k
    ensures n > 0 ==> Place(n - 1).row == k - 1
  {
    if n == 0 then 1 else (n + Columns - 1) / Columns
  }

  /** The cells holding a button once `n` records are placed. */
  function Cells(n: nat): set<Cell> {
    set i | 0 <= i < n :: Place(i)
  }

  /** A cell holds a button exactly when it is in the grid and its reading index is below `n`. */
  lemma CellsExactlyOccupied(n: nat, c: Cell)
    ensures c in Cells(n) <==> InColumns(c) && Index(c) < n
  {
    if InColumns(c) && Index(c) < n {
      PlaceOfIndex(c);
      assert Place(Index(c)) in Cells(n);
    }
  }
}
