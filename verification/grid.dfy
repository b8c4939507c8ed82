/**
 The calendar grid: one cell per day, created column by column (one column per
 week, seven rows), held as the flat list of cell colours in creation order
 (milestone.py:43-52, 131-133), and the restore of saved colours onto it
 (milestone.py:136-138).
 */
module Grid {
  import opened Stages

  /** `create_row` runs for weeks 1 to 51. */
  const Weeks: nat := 51

  /** Each week has seven cells, rows 1 to 7. */
  const Rows: nat := 7

  /** Number of cells, 357: days 358 to 366 have no cell. */
  const CellCount: nat := Weeks * Rows

  /** Ordinal of the current date within its year, as `tm_yday` reports it. */
  type DayOfYear = d: int | 1 <= d <= 366 witness 1

  /** Where a cell sits in the window: its week column and weekday row, both 1-based. */
  datatype Position = Position(column: int, row: int)

  /** One call of `create_row(week)`: rows 1 to 7 of that week's column, top down. */
  function WeekColumn(week: int): (r: seq<Position>)
    ensures |r| == Rows
    ensures forall i :: 0 <= i < Rows ==> r[i] == Position(week, i + 1)
  {
    seq(Rows, i => Position(week, i + 1))
  }

  /** Cells in the order the start-up loop appends them to the list, weeks 1 to `weeks`. */
  function CreationOrder(weeks: nat): seq<Position>
    decreases weeks
  {
    if weeks == 0 then [] else CreationOrder(weeks - 1) + WeekColumn(weeks)
  }

  /** The grid position of the cell at list index `idx`. */
  function PositionOf(idx: nat): Position {
    Position(idx / Rows + 1, idx % Rows + 1)
  }

  /** The list index of the cell at a grid position. */
  function IndexOf(p: Position): int {
    (p.column - 1) * Rows + (p.row - 1)
  }

  predicate OnGrid(p: Position) {
    1 <= p.column <= Weeks && 1 <= p.row <= Rows
  }

  lemma DivRows(idx: nat, q: nat)
    requires q * Rows <= idx < q * Rows + Rows
    ensures idx / Rows == q && idx % Rows == idx - q * Rows
  {
  }

  /**
   The list built by the start-up loop puts the cell of week `c`, row `r` at
   index `(c - 1) * 7 + (r - 1)`: entry `idx` sits in column `idx / 7 + 1`,
   row `idx % 7 + 1`.
   */
  lemma {:induction false} CreationOrderIsIndexed(weeks: nat)
    ensures |CreationOrder(weeks)| == weeks * Rows
    ensures forall idx :: 0 <= idx < weeks * Rows ==> CreationOrder(weeks)[idx] == PositionOf(idx)
    decreases weeks
  {
    if weeks > 0 {
      CreationOrderIsIndexed(weeks - 1);
      var prev := CreationOrder(weeks - 1);
      var all := CreationOrder(weeks);
      forall idx | 0 <= idx < weeks * Rows
        ensures all[idx] == PositionOf(idx)
      {
        if idx < (weeks - 1) * Rows {
          assert all[idx] == prev[idx];
        } else {
          DivRows(idx, weeks - 1);
          assert all[idx] == WeekColumn(weeks)[idx - (weeks - 1) * Rows];
        }
      }
    }
  }

  /** The full grid has 357 cells and its list order is the column-by-column order. */
  lemma GridOrder()
    ensures |CreationOrder(Weeks)| == CellCount == 357
    ensures forall idx :: 0 <= idx < CellCount ==> CreationOrder(Weeks)[idx] == PositionOf(idx)
  {
    CreationOrderIsIndexed(Weeks);
  }

  /** `PositionOf` and `IndexOf` are inverse on the cells of the grid. */
  lemma PositionIndexRoundTrip(idx: nat, p: Position)
    ensures idx < CellCount ==> OnGrid(PositionOf(idx)) && IndexOf(PositionOf(idx)) == idx
    ensures OnGrid(p) ==> 0 <= IndexOf(p) < CellCount && PositionOf(IndexOf(p)) == p
  {
    if OnGrid(p) {
      DivRows(IndexOf(p), p.column - 1);
    }
  }

  /** Colours of a freshly built grid: every cell white. */
  function InitialGrid(): (g: seq<string>)
    ensures |g| == CellCount
    ensures forall i :: 0 <= i < |g| ==> g[i] == White
  {
    seq(CellCount, _ => White)
  }

  /**
   `zip(buttons, button_colors)` followed by setting each paired cell: cell `i`
   takes `saved[i]` when the saved list is long enough and keeps its colour
   otherwise; saved entries past the last cell are ignored.
   */
  function Restore(grid: seq<string>, saved: seq<string>): (r: seq<string>)
    ensures |r| == |grid|
    ensures forall i :: 0 <= i < |grid| ==> r[i] == if i < |saved| then saved[i] else grid[i]
    decreases |grid|
  {
    if grid == [] || saved == [] then grid
    else [saved[0]] + Restore(grid[1..], saved[1..])
  }

  /**
   Restoring the colour list a grid was saved as, onto a fresh grid, gives that
   grid back; a shorter list leaves the tail white, a longer one is cut.
   */
  lemma RestoreSaved(saved: seq<string>)
    ensures |saved| == CellCount ==> Restore(InitialGrid(), saved) == saved
    ensures forall i :: |saved| <= i < CellCount ==> Restore(InitialGrid(), saved)[i] == White
    ensures |saved| > CellCount ==> Restore(InitialGrid(), saved) == saved[..CellCount]
  {
  }
}
