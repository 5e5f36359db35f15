/** Arrow-key navigation of the focused cover in the five-column grid. */
module Navigation {
  import opened Grid

  /** The keys the handlers distinguish; every other key is `Other`. */
  datatype Key = Right | Left | Down | Up | Return | Enter | Space | Other(code: int)

  predicate IsArrow(k: Key) {
    k.Right? || k.Left? || k.Down? || k.Up?
  }

  /** The keys that activate (click) the focused cover. */
  predicate IsActivation(k: Key) {
    k.Return? || k.Enter? || k.Space?
  }

  /** What a key press does. */
  datatype Outcome =
    | Moved(target: Cell)  // focus goes to the button at `target`
    | Stayed               // the clamped target cell is empty: focus stays
    | Activated            // the button is clicked, focus stays
    | Passed               // not a navigation key: left to the default button handling

  /** The cell an arrow aims at before clamping: Right and Left wrap across rows. */
  function Shift(k: Key, here: Cell): Cell
    requires IsArrow(k)
  {
    if k.Right? then
      if here.col + 1 >= Columns then Cell(here.row + 1, 0) else Cell(here.row, here.col + 1)
    else if k.Left? then
      if here.col - 1 < 0 then Cell(here.row - 1, Columns - 1) else Cell(here.row, here.col - 1)
    else if k.Down? then Cell(here.row + 1, here.col)
    else Cell(here.row - 1, here.col)
  }

  /** `max(lo, min(hi, x))`. */
  function Clamp(lo: int, hi: int, x: int): int {
    if x < lo || hi < lo then lo else if x > hi then hi else x
  }

  /**
   * Clamps a cell into rows `0 .. rowCount-1` and columns `0 .. 4`; a
   * coordinate already in range is left alone.
   */
  function ClampToGrid(c: Cell, rowCount: int): (t: Cell)
    ensures 0 <= t.row && (rowCount >= 1 ==> t.row < rowCount)
    ensures 0 <= t.col < Columns
    ensures 0 <= c.row < rowCount ==> t.row == c.row
    ensures 0 <= c.col < Columns ==> t.col == c.col
    ensures c.row < 0 ==> t.row == 0
    ensures rowCount >= 1 && c.row >= rowCount ==> t.row == rowCount - 1
    ensures c.col < 0 ==> t.col == 0
    ensures c.col >= Columns ==> t.col == Columns - 1
  {
    Cell(Clamp(0, rowCount - 1, c.row), Clamp(0, Columns - 1, c.col))
  }

  /** The cell an arrow key aims at, after clamping. */
  function Target(k: Key, here: Cell, rowCount: int): (t: Cell)
    requires IsArrow(k)
    ensures 0 <= t.row && (rowCount >= 1 ==> t.row < rowCount)
    ensures 0 <= t.col < Columns
  {
    ClampToGrid(Shift(k, here), rowCount)
  }

  /** The button at `here` is a cell of a grid with `rowCount` rows. */
  predicate OnGrid(here: Cell, rowCount: int) {
    InColumns(here) && here.row < rowCount
  }

  /**
   * `GridButton.keyPressEvent` of the first grid: an arrow moves focus to
   * the clamped target when that cell holds a button; any other key is left
   * to the default handling.
   */
  function KeyPress(k: Key, here: Cell, rowCount: int, occupied: set<Cell>): (o: Outcome)
    ensures o.Passed? <==> !IsArrow(k)
    ensures !o.Activated?
    ensures IsArrow(k) ==> (o.Moved? <==> Target(k, here, rowCount) in occupied)
    ensures o.Moved? ==> o.target in occupied && o.target == Target(k, here, rowCount)
  {
    if !IsArrow(k) then Passed
    else
      var t := Target(k, here, rowCount);
      if t in occupied then Moved(t) else Stayed
  }

  /**
   * The free `keyPressEvent` function of the second grid: Return, Enter and
   * Space click the button without moving focus; arrows navigate as above.
   */
  function KeyPressWithActivation(k: Key, here: Cell, rowCount: int, occupied: set<Cell>): (o: Outcome)
    ensures o.Activated? <==> IsActivation(k)
    ensures IsArrow(k) ==> o == KeyPress(k, here, rowCount, occupied)
    ensures o.Passed? <==> !IsArrow(k) && !IsActivation(k)
  {
    if IsActivation(k) then Activated else KeyPress(k, here, rowCount, occupied)
  }

  /** The cell holding focus after a key press. */
  function FocusAfter(here: Cell, o: Outcome): Cell {
    if o.Moved? then o.target else here
  }

  /** Keys other than the arrows never move the focus. */
  lemma NonArrowKeepsFocus(k: Key, here: Cell, rowCount: int, occupied: set<Cell>)
    requires !IsArrow(k)
    ensures FocusAfter(here, KeyPress(k, here, rowCount, occupied)) == here
    ensures FocusAfter(here, KeyPressWithActivation(k, here, rowCount, occupied)) == here
  {
  }

  /** Right moves one column, wrapping from column 4 to column 0 of the next row (clamped to the last). */
  lemma RightTarget(here: Cell, rowCount: int)
    requires OnGrid(here, rowCount)
    ensures here.col < Columns - 1 ==> Target(Right, here, rowCount) == Cell(here.row, here.col + 1)
    ensures here.col == Columns - 1 ==>
      Target(Right, here, rowCount) == Cell(if here.row + 1 < rowCount then here.row + 1 else rowCount - 1, 0)
  {
  }

  /** Left moves one column, wrapping from column 0 to column 4 of the previous row (clamped to row 0). */
  lemma LeftTarget(here: Cell, rowCount: int)
    requires OnGrid(here, rowCount)
    ensures here.col > 0 ==> Target(Left, here, rowCount) == Cell(here.row, here.col - 1)
    ensures here.col == 0 ==> Target(Left, here, rowCount) == Cell(if here.row > 0 then here.row - 1 else 0, Columns - 1)
  {
  }

  /** Up and Down change only the row, one step, stopping at the first and last rows. */
  lemma VerticalTarget(here: Cell, rowCount: int)
    requires OnGrid(here, rowCount)
    ensures Target(Up, here, rowCount) == Cell(if here.row > 0 then here.row - 1 else 0, here.col)
    ensures Target(Down, here, rowCount) == Cell(if here.row + 1 < rowCount then here.row + 1 else here.row, here.col)
  {
  }

  /**
   * Right is "next in reading order": inside the grid it moves to the cell
   * whose reading index is one more, and only the very last cell wraps back
   * to the start of its own row.
   */
  lemma RightIsReadingSuccessor(here: Cell, rowCount: int)
    requires OnGrid(here, rowCount)
    ensures Index(here) + 1 < rowCount * Columns ==> Index(Target(Right, here, rowCount)) == Index(here) + 1
    ensures Index(here) + 1 == rowCount * Columns ==> Target(Right, here, rowCount) == Cell(rowCount - 1, 0)
  {
  }

  /**
   * Left is "previous in reading order": it moves to the cell whose reading
   * index is one less, except at the very first cell, which goes to (0, 4).
   */
  lemma LeftIsReadingPredecessor(here: Cell, rowCount: int)
    requires OnGrid(here, rowCount)
    ensures Index(here) > 0 ==> Index(Target(Left, here, rowCount)) == Index(here) - 1
    ensures Index(here) == 0 ==> Target(Left, here, rowCount) == Cell(0, Columns - 1)
  {
  }

  /** Away from the grid's last cell, Left undoes Right; away from its first, Right undoes Left. */
  lemma LeftUndoesRight(here: Cell, rowCount: int)
    requires OnGrid(here, rowCount)
    ensures Index(here) + 1 < rowCount * Columns ==> Target(Left, Target(Right, here, rowCount), rowCount) == here
    ensures Index(here) > 0 ==> Target(Right, Target(Left, here, rowCount), rowCount) == here
  {
  }

  /**
   * In a grid filled with `n` records, Right on record `i` focuses record
   * `i + 1` and Left focuses record `i - 1`, whenever that record exists.
   */
  lemma NeighbourRecords(n: nat, i: nat)
    requires i < n
    ensures i + 1 < n ==> KeyPress(Right, Place(i), RowCount(n), Cells(n)) == Moved(Place(i + 1))
    ensures i > 0 ==> KeyPress(Left, Place(i), RowCount(n), Cells(n)) == Moved(Place(i - 1))
  {
  }

  /** In a filled grid, focus only ever moves to the button of some record. */
  lemma MovesStayOnRecords(k: Key, n: nat, i: nat)
    requires i < n
    ensures var o := KeyPress(k, Place(i), RowCount(n), Cells(n));
      o.Moved? ==> exists j :: 0 <= j < n && o.target == Place(j)
  {
  }
}
