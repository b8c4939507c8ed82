# Milestone Monitor in Dafny

Milestone Monitor is a one-window Tk widget (`milestone.py`). It shows a calendar grid with one button per
day of the year. Each click on a button moves that day's colour one step along a five-colour green ramp. Below the grid is a
list of tasks for today. At start-up it loads cell colours and tasks from a JSON file. Tasks of earlier days whose
cells are not yet at the darkest stage are moved onto today's list. Edit mode is switched once, and "Save & Exit"
writes the colours and tasks back.

This project models that logic as pure functions and proves what it guarantees:

- `Stages` (stages.dfy): the colour ramp and the click handler `change_button_color`, including its
  loop-with-`break`/`elif` shape.
- `Grid` (grid.dfy): the order in which the 51 × 7 = 357 cell buttons are created, and the index ↔ (week, row)
  mapping. It also covers the `zip` restore of saved colours.
- `PyText` (pytext.dfy): the pieces of Python the logic depends on: `str.strip()`, `int()` on a string (base 10,
  surrounding whitespace, sign, underscores between digits, leading zeros) and `str(n)`. The two trim different
  sets: `str.strip()` removes every character `str.isspace()` accepts, while `int()` removes ASCII space and
  `\t\n\v\f\r` and, above U+007F, the same characters as `str.isspace()`. So the separators U+001C..U+001F are
  stripped from task text but make a key fail to parse.
- `TaskStore` (taskstore.dfy): the task dict, as an association list in insertion order. It has
  `setdefault(...).extend`, `del`, `get`, and `add_task`.
- `Rollover` (rollover.dfy): `process_overdue_tasks`, written exactly as the loop runs: a snapshot of the keys, a
  per-key decision, Python's negative list indexing, and an uncaught `IndexError`. It also holds an independent
  reference definition, `Expected`: the kept items, with today's list extended by the moved tasks. A proof shows
  that the loop always equals `Expected`.
- `RolloverFacts` (rolloverfacts.dfy): what follows from that proof. Tasks are conserved, kept keys are untouched,
  moved keys are gone, the only exception is `IndexError`, and a second pass changes nothing.
- `EditMode` (editmode.dfy): `toggle_edit_mode`, which sets the flag, the state and click binding of every cell,
  and the task entry and its button. It also covers the single toggle at start-up and what a click does.
- `App` (app.dfy): the start-up sequence, the user's actions, and save. It proves that saving and then starting
  again on the same day restores every colour and every task.
- `Scenarios` (scenarios.dfy): concrete rollover runs.
- `Wrappers` (wrappers.dfy): `Option`.

What the code does at its edges:

- The grid has 51 week columns (`range(1, 52)`), so 357 cells. Days 358–366 have no cell.
- The flag starts `False` and start-up toggles it once, so the widget opens with edit mode ON:
  - the entry and "Add Task" are enabled;
  - today's cell is the only bound cell;
  - every other cell is disabled.
- In the other mode, cells other than today's are enabled but unbound. A click on them does nothing.

## Model

| member | source | states |
|---|---|---|
| Stages.Stage | milestone.py:27 | position of a colour on the five-entry ramp; -1 exactly for colours not on it |
| Stages.AdvanceFrom | milestone.py:58-63 | the handler's loop from a given position: a ramp match below the last sets the next colour, an off-ramp colour sets the first, the last colour is left alone |
| Stages.Advance | milestone.py:54-63 | a click turns an unrecognised colour into ramp[0], ramp[i] (i < 4) into ramp[i+1], leaves ramp[4] as it is, and always yields a ramp colour |
| Stages.AdvanceStage | milestone.py:59-63 | a click raises the stage index by one, capped at the last stage |
| Stages.AdvanceNOnRamp | milestone.py:54-63 | n clicks on ramp entry k show entry k+n, capped at the last entry |
| Stages.AdvanceNOffRamp | milestone.py:54-63 | n >= 1 clicks on a colour off the ramp show entry n-1, capped at the last entry |
| Stages.FiveClicksFromWhite | milestone.py:49-63 | from the white a cell is created with, click n (n <= 5) shows ramp[n-1]; fewer than five clicks never show the last colour; five or more always do |
| Stages.FinalIsCeiling | milestone.py:59-61 | any number of clicks on a cell at the last stage leave it there |
| Grid.CreationOrderIsIndexed | milestone.py:132-133 | after weeks 1..w the list has 7w buttons, and entry idx is week idx/7+1, row idx%7+1 |
| Grid.GridOrder | milestone.py:132-133 | the full grid has 357 cells in column-by-column order |
| Grid.PositionIndexRoundTrip | milestone.py:51 | list index and (week, row) position are inverse on the grid |
| Grid.Restore | milestone.py:137-138 | `zip` restore: cell i takes saved[i] when there is one and keeps its colour otherwise; the length never changes |
| Grid.RestoreSaved | milestone.py:136-138 | restoring a full saved list onto a fresh grid gives that list back; a short list leaves the tail white; a long one is cut to 357 |
| PyText.Trim | milestone.py:98 | trimming (the `str.strip()` set for task text, the `int()` set for keys) cuts the text into a whitespace prefix, the result and a whitespace suffix; the result has no whitespace at either end, is empty exactly for whitespace-only text, and is the text itself when its ends are not whitespace |
| PyText.NatToString | milestone.py:100 | `str(n)` is a non-empty run of digits without a leading zero |
| PyText.ParseNatToString | milestone.py:88 | `int(str(n)) == n`: keys written as `str(day)` parse back to the day |
| PyText.MinusParse | milestone.py:88 | a minus sign followed by a digit body, as in the keys of days before the first, parses to the body's value negated |
| PyText.PlusParse | milestone.py:88 | a plus sign followed by a digit body parses to the body's value |
| PyText.ParsePlus | milestone.py:88 | `int("+" + str(n)) == n` |
| PyText.ParseInt | milestone.py:88-95 | `int()` on a key that is blank or only whitespace raises `ValueError`, so the key is skipped |
| PyText.ParseIntShape | milestone.py:88-95 | a key `int()` accepts is, once trimmed, a digit or sign followed by text ending in a digit, and a negative value comes from a leading minus |
| PyText.SeparatorsRefused | milestone.py:88-95 | a key starting or ending with one of U+001C..U+001F is refused by `int()`, although `str.strip()` would remove those characters |
| TaskStore.Keys | milestone.py:86 | the snapshot `list(tasks.keys())` lists the keys in insertion order |
| TaskStore.Lookup | milestone.py:92 | `tasks[k]` fails exactly when k is not a key |
| TaskStore.LookupAt | milestone.py:92 | in a dict, looking up an item's key yields that item's tasks |
| TaskStore.ExtendSpec | milestone.py:92 | `setdefault(k, []).extend(items)` puts items after k's old tasks, adds a missing k last, and leaves every other key unchanged |
| TaskStore.ExtendDistinct | milestone.py:92 | extending keeps the keys distinct |
| TaskStore.ExtendAllTasks | milestone.py:92 | extending adds exactly the new tasks to the store's contents |
| TaskStore.DeleteSpec | milestone.py:93 | after `del tasks[k]`, looking up k fails and every other key yields the same tasks as before |
| TaskStore.DeleteAbsent | milestone.py:93 | deleting a key the store does not hold leaves it unchanged |
| TaskStore.DeleteMiddle | milestone.py:93 | deleting the key of one item of a dict removes just that item, and the items before and after it keep their order |
| TaskStore.AddTask | milestone.py:97-103 | whitespace-only input changes nothing; other input appends its stripped text to today's list, which is created last if missing; no other key changes; the store stays a dict |
| Rollover.PyIndex | milestone.py:91 | `buttons[i]` succeeds exactly for -357 <= i < 357 and yields entry i, or entry 357 + i for a negative i |
| Rollover.TodayKeyKept | milestone.py:89 | today's own key is never before today, so it is never moved |
| Rollover.RollKeysIsExpected | milestone.py:86-95 | the key loop, with any decision that keeps today's key, equals the reference result |
| Rollover.ProcessOverdueIsExpected | milestone.py:84-95 | `process_overdue_tasks` on a dict equals the reference: IndexError if a key fails, else kept items with today's list extended by moved tasks in key order |
| RolloverFacts.FailOnlyFarBack | milestone.py:90-91 | a key fails exactly when it is an integer at most -357 (before the front of the list) |
| RolloverFacts.KeptConditions | milestone.py:88-91 | non-integer keys, keys not before today, keys past the last cell and keys whose cell is at the last stage stay; an earlier day on the grid moves exactly when its cell is not at the last stage |
| RolloverFacts.RolloverRaises | milestone.py:86-95 | the pass raises exactly when some key fails, and never a `KeyError` |
| RolloverFacts.RolloverConserves | milestone.py:92-93 | a finished pass keeps the store a dict with the same multiset of tasks and the same count; with nothing to move the store is unchanged |
| RolloverFacts.RolloverKeys | milestone.py:92-93 | kept keys other than today's keep their tasks, moved keys are gone, today's list is its old tasks followed by the moved ones, created last if missing |
| RolloverFacts.RolloverIdempotent | milestone.py:84-95 | a second pass on the result changes nothing |
| RolloverFacts.RolloverSettles | milestone.py:84-95 | after a finished pass every remaining key stays |
| RolloverFacts.SettledRollsToItself | milestone.py:84-95 | a dict whose every key stays passes through unchanged |
| RolloverFacts.KeepAfterAdvance | milestone.py:91 | clicking any cell never makes a staying key move or fail |
| EditMode.ToggleCells | milestone.py:119-125 | the per-cell loop: today's cell enabled and bound; others unbound and enabled iff the flag is now false |
| EditMode.Toggle | milestone.py:115-128 | flips the flag; today's cell enabled and bound; other cells unbound and disabled iff the flag is true; entry and button enabled iff the flag is true |
| EditMode.StartupIsEditing | milestone.py:149 | after the start-up toggle the flag is true, entry and button are enabled, today's cell is enabled and bound and all others are disabled |
| EditMode.ToggleTwice | milestone.py:115-128 | two toggles restore the flag, and restore every widget state once toggled at least once |
| EditMode.OnlyTodayClicks | milestone.py:119-125 | after any toggle only a click on today's cell changes the grid |
| App.SaveLoad | milestone.py:65-82 | loading the file "Save & Exit" writes gives back exactly the grid's colours and the task dict |
| App.LaunchFacts | milestone.py:131-149 | start-up restores saved colours (white beyond them), rolls the loaded tasks over that grid, opens in edit mode, and crashes with `IndexError` exactly when a loaded key fails |
| App.FirstLaunch | milestone.py:74-82 | with no data file start-up yields a white grid, no tasks and edit mode on |
| App.LaunchSettled | milestone.py:136-140 | a successful start-up leaves a full grid and a dict with nothing left to roll over |
| App.StepSettled | milestone.py:84-95 | no click, toggle or added task gives the next rollover anything to move |
| App.RunSettled | milestone.py:84-95 | the same over any sequence of user actions |
| App.RelaunchSameDay | milestone.py:65-82 | saving and starting again on the same day restores every colour and every task |
| App.SessionRoundTrip | milestone.py:131-140 | after any session, "Save & Exit" and a same-day start give back the session's final colours and tasks |
| Scenarios.OverdueDayMoves | milestone.py:86-93 | on day 10 with a white grid, day 5's tasks go to the end of day 10's list and a non-numeric key stays |
| Scenarios.SeparatorKeyStays | milestone.py:88-95 | on day 10 with a white grid, the key "\U{001C}5" stays where it is, although `str.strip()` reduces it to "5" |
| Scenarios.DoneDayStays | milestone.py:91 | day 5's tasks stay when its cell is at the last stage |
| Scenarios.FarBackKeyRaises | milestone.py:90-91 | a key "-357" makes the rollover raise `IndexError` |
| Scenarios.ZeroKeyReadsLastCell | milestone.py:90-91 | key "0" reads the last cell and moves unless that cell is done |

## Left out

- The Tk window, layout, month labels, fonts and the icon loading (lines 7-20, 39-46, 143-146) are not modelled:
  they are presentation only.
- The date is a parameter, `today` of type `DayOfYear` (1..366). The clock read of lines 23-24 is not modelled.
- File I/O and JSON parsing (lines 70-81) are not modelled. A missing, unreadable or malformed file is the `None`
  input of `App.Load`. A readable file is assumed to hold a list of strings under "colors" and a dict of lists of
  strings under "tasks".
- Tk accepts only valid colour names and normalises them. A saved colour is assumed to be a valid Tk colour that
  reads back as written. An invalid one would raise `TclError` during the restore, and that path is not modelled.
- `update_tasks_display` (lines 105-111) only renders `tasks.get(str(day_of_year), [])` in order. Its content is
  `TaskStore.TodayTasks`, and the text widget itself is not modelled.
- The entry's text is the `text` of `App.SubmitTask`. Clearing the entry after adding a task is not modelled.
- The "Save & Exit" button closes the window after writing. `App.Save` models only the data written.
- PyText.ParseInt: the model of `int()` accepts ASCII digits only. It leaves out Python's acceptance of
  other Unicode decimal digits and the `sys.int_max_str_digits` limit.
- Rollover.ProcessOverdueIsExpected: stated for stores whose keys are distinct, which every Python dict's are.
- A key of -357 or below makes `process_overdue_tasks` raise an uncaught `IndexError`. This ends start-up, and the
  model reports it as `App.Crashed` rather than repairing it.
