/**
 The widget as a whole: start-up (build the grid, load the data file, restore
 the colours, roll overdue tasks forward, switch edit mode once), the user's
 actions while it runs, and the data it writes on exit
 (milestone.py:65-82, 131-150).
 */
module App {
  import opened Wrappers
  import opened Stages
  import opened Grid
  import opened TaskStore
  import opened Rollover
  import opened RolloverFacts
  import opened EditMode

  /** The data file as `json.load` reads it; either field may be missing. */
  datatype SavedData = SavedData(colors: Option<seq<string>>, tasks: Option<Store>)

  /** Everything a running widget holds: cell colours, tasks, widget states and the day. */
  datatype State = State(grid: seq<string>, tasks: Store, controls: Controls, today: DayOfYear)

  /** Start-up either reaches the main loop or stops on an uncaught exception. */
  datatype Start = Started(state: State) | Crashed(error: PyError)

  /** What the user can do while the main loop runs, save for "Save & Exit". */
  datatype Action = ClickCell(index: nat) | ToggleEdit | SubmitTask(text: string)

  /**
   `load_data`: no file, or one that cannot be read or parsed (`None`), gives
   no colours and no tasks; a missing field gives its empty default.
   */
  function Load(file: Option<SavedData>): (seq<string>, Store) {
    match file
    case None => ([], [])
    case Some(data) => (data.colors.GetOr([]), data.tasks.GetOr([]))
  }

  /**
   The start-up sequence of lines 131-149: a white grid of 357 cells, the saved
   colours restored onto it, the loaded tasks rolled over against that grid,
   and edit mode switched once.
   */
  function Launch(file: Option<SavedData>, today: DayOfYear): Start {
    var (colors, loaded) := Load(file);
    var grid := Restore(InitialGrid(), colors);
    match ProcessOverdue(loaded, Board(grid, today))
    case Raised(e) => Crashed(e)
    case Rolled(tasks) => Started(State(grid, tasks, Startup(CellCount, today), today))
  }

  /** `save_data`: the colour of every cell in list order, and the task dict. */
  function Save(st: State): (d: SavedData)
    ensures d.colors.Some? && d.tasks.Some?
  {
    SavedData(Some(st.grid), Some(st.tasks))
  }

  /** `load_data` reads back exactly the colours and the task dict that `save_data` wrote. */
  lemma SaveLoad(st: State)
    ensures Load(Some(Save(st))) == (st.grid, st.tasks)
  {
  }

  /**
   One user action. A click reaches the stage advance only through a cell's
   binding; a submitted task reaches `add_task` only while the "Add Task"
   button is enabled; the "Edit Mode" button always toggles.
   */
  function Step(st: State, a: Action): State {
    match a
    case ClickCell(i) =>
      if i < |st.grid| && |st.controls.cells| == |st.grid| then st.(grid := Click(st.grid, st.controls, i)) else st
    case ToggleEdit => st.(controls := Toggle(st.controls, st.today))
    case SubmitTask(text) =>
      if st.controls.addEnabled then st.(tasks := AddTask(st.tasks, text, st.today)) else st
  }

  /** A session: the actions in order. */
  function Run(st: State, actions: seq<Action>): State
    decreases |actions|
  {
    if actions == [] then st else Run(Step(st, actions[0]), actions[1..])
  }

  /**
   A running widget whose tasks are a dict with nothing left to roll over, on
   a full grid with one widget state per cell.
   */
  predicate Settled(st: State) {
    && |st.grid| == CellCount
    && |st.controls.cells| == CellCount
    && Distinct(st.tasks)
    && forall k :: k in Keys(st.tasks) ==> Classify(k, Board(st.grid, st.today)) == Keep
  }

  /**
   What start-up produces: cell `i` shows saved colour `i` or stays white;
   the tasks are the rollover of the loaded ones; edit mode is on with only
   today's cell enabled; and it stops with `IndexError` exactly when some
   loaded key fails, never with `KeyError`.
   */
  lemma LaunchFacts(file: Option<SavedData>, today: DayOfYear)
    requires Distinct(Load(file).1)
    ensures var colors := Load(file).0;
      Launch(file, today).Started? ==>
        var st := Launch(file, today).state;
        && |st.grid| == CellCount
        && (forall i :: 0 <= i < CellCount ==> st.grid[i] == if i < |colors| then colors[i] else White)
        && st.tasks == ProcessOverdue(Load(file).1, Board(st.grid, today)).store
        && st.controls.editMode && st.controls.entryEnabled && st.controls.addEnabled
        && (forall i :: 0 <= i < CellCount ==> (st.controls.cells[i].enabled <==> i == today - 1))
    ensures Launch(file, today).Crashed? <==>
      exists k :: k in Keys(Load(file).1) && Classify(k, Board(Restore(InitialGrid(), Load(file).0), today)) == Fail
    ensures Launch(file, today) != Crashed(KeyError)
  {
    var grid := Restore(InitialGrid(), Load(file).0);
    RolloverRaises(Load(file).1, Board(grid, today));
    StartupIsEditing(CellCount, today);
  }

  /** The first start, with no data file: a white grid, no tasks, edit mode on. */
  lemma FirstLaunch(today: DayOfYear)
    ensures Launch(None, today) == Started(State(InitialGrid(), [], Startup(CellCount, today), today))
  {
    assert Restore(InitialGrid(), []) == InitialGrid();
  }

  /** Start-up ends settled. */
  lemma LaunchSettled(file: Option<SavedData>, today: DayOfYear)
    requires Distinct(Load(file).1)
    ensures Launch(file, today).Started? ==> Settled(Launch(file, today).state)
  {
    var grid := Restore(InitialGrid(), Load(file).0);
    var b := Board(grid, today);
    if ProcessOverdue(Load(file).1, b).Rolled? {
      RolloverConserves(Load(file).1, b);
      RolloverSettles(Load(file).1, b);
    }
  }

  /**
   No user action unsettles the widget: a click only darkens a cell, a new
   task only lands under today's key, and a toggle touches neither.
   */
  lemma StepSettled(st: State, a: Action)
    requires Settled(st)
    ensures Settled(Step(st, a))
    ensures Step(st, a).today == st.today
  {
    var b := Board(st.grid, st.today);
    match a {
      case ClickCell(i) =>
        if i < |st.grid| && st.controls.cells[i].bound {
          forall k | k in Keys(st.tasks) ensures Classify(k, Board(st.grid[i := Advance(st.grid[i])], st.today)) == Keep {
            KeepAfterAdvance(k, b, i);
          }
        }
      case ToggleEdit =>
      case SubmitTask(text) =>
        TodayKeyKept(b);
    }
  }

  lemma {:induction false} RunSettled(st: State, actions: seq<Action>)
    requires Settled(st)
    ensures Settled(Run(st, actions)) && Run(st, actions).today == st.today
    decreases |actions|
  {
    if actions != [] {
      StepSettled(st, actions[0]);
      RunSettled(Step(st, actions[0]), actions[1..]);
    }
  }

  /**
   Saving a settled widget and starting again on the same day brings back
   every cell colour and every task unchanged, with edit mode on again.
   */
  lemma RelaunchSameDay(st: State)
    requires Settled(st)
    ensures Launch(Some(Save(st)), st.today) == Started(st.(controls := Startup(CellCount, st.today)))
  {
    var file := Some(Save(st));
    SaveLoad(st);
    RestoreSaved(st.grid);
    assert Restore(InitialGrid(), st.grid) == st.grid;
    SettledRollsToItself(st.tasks, Board(st.grid, st.today));
  }

  /**
   Whatever the user does after a start-up, "Save & Exit" followed by a start
   on the same day restores exactly the colours and tasks the session ended
   with.
   */
  lemma SessionRoundTrip(file: Option<SavedData>, today: DayOfYear, actions: seq<Action>)
    requires Distinct(Load(file).1) && Launch(file, today).Started?
    ensures var st := Run(Launch(file, today).state, actions);
      Launch(Some(Save(st)), today) == Started(st.(controls := Startup(CellCount, today)))
  {
    LaunchSettled(file, today);
    RunSettled(Launch(file, today).state, actions);
    RelaunchSameDay(Run(Launch(file, today).state, actions));
  }
}
