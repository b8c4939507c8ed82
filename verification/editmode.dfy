/**
 The edit-mode switch (`toggle_edit_mode`, milestone.py:113-129): one flag,
 plus the enabled state and click binding of every cell and the enabled state
 of the task entry and its button, all rewritten on every toggle.
 */
module EditMode {
  import opened Stages
  import opened Grid

  /** A cell's widget state: whether it is enabled and whether a click runs the stage advance. */
  datatype CellControl = CellControl(enabled: bool, bound: bool)

  /** The flag and every widget state the toggle rewrites. */
  datatype Controls = Controls(
    editMode: bool,
    cells: seq<CellControl>,
    entryEnabled: bool,
    addEnabled: bool)

  /**
   The widgets as built, before the first toggle: the flag is false, every
   cell is enabled with the advance bound to clicks, and the entry and the
   add button are enabled (milestone.py:34-35, 49-50, 113).
   */
  function Initial(cellCount: nat): (c: Controls)
    ensures !c.editMode && c.entryEnabled && c.addEnabled && |c.cells| == cellCount
    ensures forall i :: 0 <= i < cellCount ==> c.cells[i] == CellControl(true, true)
  {
    Controls(false, seq(cellCount, _ => CellControl(true, true)), true, true)
  }

  /**
   The loop over `enumerate(buttons)` from index `idx` on, with the new flag
   `editMode`: today's cell is enabled and bound, every other cell loses its
   binding and is disabled exactly when the flag is now true.
   */
  function ToggleCells(cells: seq<CellControl>, idx: nat, today: DayOfYear, editMode: bool): (r: seq<CellControl>)
    ensures |r| == |cells|
    ensures forall i :: 0 <= i < |cells| && idx + i == today - 1 ==> r[i] == CellControl(true, true)
    ensures forall i :: 0 <= i < |cells| && idx + i != today - 1 ==> r[i] == CellControl(!editMode, false)
    decreases |cells|
  {
    if cells == [] then []
    else
      var first := if idx == today - 1 then CellControl(true, true) else CellControl(!editMode, false);
      [first] + ToggleCells(cells[1..], idx + 1, today, editMode)
  }

  /**
   `toggle_edit_mode`: flips the flag; afterwards today's cell (if the grid has
   one) is enabled and bound, every other cell is unbound and disabled exactly
   when the flag is true, and the entry and the add button are enabled exactly
   when the flag is true.
   */
  function Toggle(c: Controls, today: DayOfYear): (r: Controls)
    ensures r.editMode == !c.editMode
    ensures |r.cells| == |c.cells|
    ensures today <= |c.cells| ==> r.cells[today - 1] == CellControl(true, true)
    ensures forall i :: 0 <= i < |r.cells| && i != today - 1 ==> !r.cells[i].bound
    ensures forall i :: 0 <= i < |r.cells| && i != today - 1 ==> (r.cells[i].enabled <==> !r.editMode)
    ensures r.entryEnabled == r.editMode && r.addEnabled == r.editMode
  {
    var mode := !c.editMode;
    Controls(mode, ToggleCells(c.cells, 0, today, mode), mode, mode)
  }

  /** The state after start-up: the widgets as built, toggled once (milestone.py:149). */
  function Startup(cellCount: nat, today: DayOfYear): Controls {
    Toggle(Initial(cellCount), today)
  }

  /**
   After start-up the flag is true: the entry and the add button are enabled,
   today's cell is the only bound one and every other cell is disabled.
   */
  lemma StartupIsEditing(cellCount: nat, today: DayOfYear)
    ensures var c := Startup(cellCount, today);
      && c.editMode && c.entryEnabled && c.addEnabled
      && (forall i :: 0 <= i < cellCount && i != today - 1 ==> c.cells[i] == CellControl(false, false))
      && (today <= cellCount ==> c.cells[today - 1] == CellControl(true, true))
  {
  }

  /**
   Two toggles bring back the flag, and once the widgets have been toggled
   (as they are at start-up), two more toggles bring back every widget state.
   */
  lemma ToggleTwice(c: Controls, today: DayOfYear)
    ensures Toggle(Toggle(c, today), today).editMode == c.editMode
    ensures Toggle(Toggle(Toggle(c, today), today), today) == Toggle(c, today)
  {
    var once := Toggle(c, today);
    var thrice := Toggle(Toggle(once, today), today);
    assert thrice.cells == once.cells;
  }

  /**
   A click on cell `i` (the `<Button-1>` binding): a bound cell advances one
   stage, an unbound one is left alone.
   */
  function Click(grid: seq<string>, c: Controls, i: nat): (g: seq<string>)
    requires i < |grid| && |c.cells| == |grid|
    ensures |g| == |grid|
    ensures forall j :: 0 <= j < |grid| && j != i ==> g[j] == grid[j]
    ensures c.cells[i].bound ==> g[i] == Advance(grid[i])
    ensures !c.cells[i].bound ==> g == grid
  {
    if c.cells[i].bound then grid[i := Advance(grid[i])] else grid
  }

  /**
   Once the widgets have been toggled, in either mode, only a click on today's
   cell changes the grid, and it moves that cell one stage on.
   */
  lemma OnlyTodayClicks(grid: seq<string>, c: Controls, today: DayOfYear, i: nat)
    requires i < |grid| && |c.cells| == |grid|
    ensures var t := Toggle(c, today);
      && (Click(grid, t, i) != grid ==> i == today - 1)
      && (i == today - 1 ==> Click(grid, t, i) == grid[i := Advance(grid[i])])
  {
  }
}
