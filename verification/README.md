# Arcade launcher: a Dafny model of its grid logic

The arcade launcher is a desktop window. It shows one cover button per game record in a
five-column grid. Arrow keys move keyboard focus between the covers. A focused cover zooms
through a temporary enlarged copy, the "overlay". Activating a cover spawns the game's
program, or its emulator with its ROM. This project models the logic under the widgets:

- `Grid` and `Layout`: where `populate_games` puts each record, what it removes first,
  and the `ALL GAMES (n)` header.
- `Navigation`: the arrow-key cursor of `GridButton.keyPressEvent` in `Inter.py`. It also
  covers the free `keyPressEvent` function of `grid_button.py`, which adds activation by
  Return, Enter and Space. That function is written at module level, not inside the
  class, so it is not a method of that `GridButton`. It is modelled as a standalone
  function.
- `Launch`: target selection and the spawn step of both `launch_game` versions.
- `Geometry`: the integer arithmetic of the overlay's end rectangle.
- `ImmediateOverlay`: the overlay of `Inter.py` as a state machine. The overlay is made
  on focus-in, and its reference is dropped only when the zoom-out finishes.
- `DebouncedOverlay`: the overlay of `grid_button.py` as a state machine. Focus-in starts
  a 100 ms single-shot timer. The overlay is made only if the tile still has focus when
  the timer fires. Closing detaches the overlay at once.

Toolkit inputs are parameters:

- the grid's row count;
- which cells hold a button (a set of cells);
- whether a tile's icon is null;
- the button's rectangle and centre in window coordinates;
- the operating system's answer to a spawn.

The row count of a grid filled with `n` records is taken to be `max(1, ceil(n/5))`
(`Grid.RowCount`).

Each overlay machine has an invariant. The invariant holds for the initial tile and is
kept by every event that can occur, and so by every run. For `Inter.py` the invariant
gives at most one live overlay widget per tile. For `grid_button.py` it gives at most
one attached overlay, and no overlay is made unless the timer fires. In `grid_button.py`
an overlay still zooming out can coexist with a new one
(`DebouncedOverlay.TwoOverlaysCanBeAlive`). The model has no clock: both the zoom-out
and the debounce last 100 ms, and the zoom-out starts first, so in real time this needs
the tile to regain focus within about one animation frame of losing it. In `Inter.py`, focus that returns during the
zoom-out gets no zoom of its own (`ImmediateOverlay.RefocusDuringExit`).

## Model

| member | source | states |
|---|---|---|
| `Grid.Place` | launcher.py:111-121 | record `i` lands at row `i div 5`, column `i mod 5`: a cell of the five columns whose reading-order index is `i`, so placement is injective |
| `Grid.PlaceRowMajor` | launcher.py:114-121 | a later record is placed strictly later in reading order, never in an earlier row |
| `Grid.PlaceOfIndex` | Inter.py:384-394 | every cell of the five columns is the place of its reading index (placement is onto the reading order) |
| `Grid.RowCount` | launcher.py:114-121 | the grid of `n` records has at least one row, every record's row is below the row count, and the last record sits in the last row |
| `Grid.CellsExactlyOccupied` | launcher.py:114-121 | after `n` records a cell holds a button exactly when it is in the five columns and its reading index is below `n` |
| `Layout.Clear` | launcher.py:104-109 | taking item 0 until the layout is empty removes every item and schedules exactly the widgets among them for deletion, in order |
| `Layout.Populate` | launcher.py:104-121 | every old item is removed and its widgets deleted; then exactly one button per record, the `i`-th record's button at (`i div 5`, `i mod 5`), which is also the button's own row and column |
| `Layout.PopulatedGridShape` | Inter.py:378-394 | the filled grid holds one widget per record, cells strictly increase in reading order, each button's own row and column match its layout cell, and the cells used are exactly the first `n` reading positions |
| `Text.Decimal` | launcher.py:44 | the count is written as a non-empty string of decimal digits without leading zeros |
| `Text.DecimalRoundTrip` | launcher.py:44 | reading the written digits back gives the count |
| `Layout.HeaderReportsCount` | launcher.py:44 | the header `ALL GAMES (n)` parses back to the number of records |
| `Navigation.ClampToGrid` | Inter.py:226-227 | the clamped row lies in `0 .. rowCount-1` and the column in `0 .. 4`; in-range coordinates are untouched, and out-of-range ones go to the nearest edge |
| `Navigation.Target` | grid_button.py:158-186 | every arrow key aims inside the grid: row in `0 .. rowCount-1`, column in `0 .. 4` |
| `Navigation.KeyPress` | Inter.py:202-232 | non-arrow keys are passed on; an arrow moves focus exactly when the clamped target cell holds a button, and only to that cell |
| `Navigation.KeyPressWithActivation` | grid_button.py:149-191 | Return, Enter and Space activate and nothing else does; arrows behave as in the first grid; other keys neither move nor activate |
| `Navigation.NonArrowKeepsFocus` | Inter.py:222-224 | keys other than the arrows leave the focused cell unchanged, in both handlers |
| `Navigation.RightTarget` | Inter.py:208-212 | Right from column `c < 4` aims at `(row, c+1)`; from column 4 at column 0 of the next row, clamped to the last row |
| `Navigation.LeftTarget` | Inter.py:213-217 | Left from column `c > 0` aims at `(row, c-1)`; from column 0 at column 4 of the previous row, so (0,0) aims at (0,4) |
| `Navigation.VerticalTarget` | Inter.py:218-221 | Up and Down change only the row, by one, stopping at row 0 and at the last row |
| `Navigation.RightIsReadingSuccessor` | Inter.py:208-227 | inside the grid, Right moves to the next cell in reading order; only the grid's last cell wraps to the start of the last row |
| `Navigation.LeftIsReadingPredecessor` | Inter.py:213-227 | Left moves to the previous cell in reading order, except the first cell, which goes to (0,4) |
| `Navigation.LeftUndoesRight` | Inter.py:206-227 | away from the grid's last cell Left undoes Right, and away from its first cell Right undoes Left |
| `Navigation.NeighbourRecords` | grid_button.py:158-191 | in a grid filled with `n` records, Right on record `i` focuses record `i+1` and Left focuses record `i-1` whenever that record exists |
| `Navigation.MovesStayOnRecords` | Inter.py:229-232 | in a filled grid, focus only ever moves to the button of some record |
| `Launch.SelectTarget` | launcher.py:145-157 | a non-empty `path` is spawned alone whatever `emulator` and `rom` hold; otherwise `[emulator, rom]` exactly when both are non-empty; otherwise nothing; every spawned argument is a non-empty value of the record |
| `Launch.SelectionReadsLaunchFields` | launcher.py:146-148 | the chosen target depends only on the `path`, `emulator` and `rom` fields |
| `Launch.LaunchGame` | launcher.py:145-159 | only a record without `name` raises; otherwise at most the selected command is spawned, a spawn failure is caught and logged instead of raised, and the log starts with the launch line and has a second line exactly when no process started: the spawn error after a failed spawn, the "nothing to launch" line when there was no target |
| `Launch.LaunchGameUnguarded` | Inter.py:424-435 | a missing `name` raises before anything is printed; a failing spawn of the selected command raises after the launch line was printed; otherwise the selected command, if any, is started, the log starts with the launch line, and a second line saying there is no path or emulator/ROM is printed exactly when nothing was started |
| `Launch.LaunchersAgree` | Inter.py:424-435 | when no spawn fails, both launchers try the same command and start the same process |
| `Geometry.Grow` | grid_button.py:80 | the grown length is `floor(base * 1.30)` and never smaller than the base |
| `Geometry.FinalRect` | grid_button.py:78-81 | the end rectangle has the grown size, and the button's centre is its middle up to rounding towards the top-left |
| `Geometry.CoverOverlay` | Inter.py:122-125 | for a 200x262 cover the end rectangle is 260x340, its top-left 130 and 170 pixels up-left of the centre |
| `Geometry.FinalCoversButton` | Inter.py:116-125 | for a tile at least 10 pixels each way, the end rectangle around its centre covers the whole tile |
| `ImmediateOverlay.FocusInEvent` | Inter.py:94-138 | focus-in takes focus; it makes no overlay when one is referenced or the icon is null, and otherwise makes exactly one, zooming in (not out) to the cover rectangle, deleting none |
| `ImmediateOverlay.FocusOutEvent` | Inter.py:156-188 | focus-out gives up focus; with no overlay nothing else changes, otherwise the overlay stays referenced and zooms back to the button rectangle |
| `ImmediateOverlay.ExitFinishedEvent` | Inter.py:175-186 | the zoom-out's end deletes the overlay and drops the reference, leaving focus as it was |
| `ImmediateOverlay.StepPreservesInv` | Inter.py:97-104 | every possible event keeps the invariant: a zoom-out runs only on a referenced overlay, and exactly the referenced overlay is alive |
| `ImmediateOverlay.RunPreservesInv` | Inter.py:94-186 | the invariant holds after every run of events that can occur |
| `ImmediateOverlay.AtMostOneOverlay` | Inter.py:97-104 | from a fresh tile, at most one overlay widget is ever alive |
| `ImmediateOverlay.OnlyExitFinishedDropsOverlay` | Inter.py:175-184 | focus events never drop an overlay reference; only the zoom-out's end does |
| `ImmediateOverlay.RefocusDuringExit` | Inter.py:97-99 | focus-in during the zoom-out is ignored, so after it finishes the focused tile has no overlay |
| `DebouncedOverlay.FocusInEvent` | grid_button.py:62-65 | focus-in takes focus and (re)starts the timer with its settings unchanged, making, closing and deleting no overlay |
| `DebouncedOverlay.ShowOverlaySafe` | grid_button.py:67-81 | the timer's handler makes exactly one overlay, zooming to the cover rectangle, when the tile still has focus and the pixmap is not null, and otherwise changes nothing |
| `DebouncedOverlay.TimeoutEvent` | grid_button.py:36-39 | the single-shot timer is inactive after it fires with its settings unchanged; exactly when the tile has focus and a non-null pixmap one overlay is created and becomes the attached one, zooming to the cover rectangle, and otherwise none is; focus and closing overlays are untouched |
| `DebouncedOverlay.CloseOverlay` | grid_button.py:120-125 | closing with no overlay changes nothing; otherwise the overlay is detached at once and counted as zooming out |
| `DebouncedOverlay.FocusOutEvent` | grid_button.py:108-118 | after focus-out the tile has no focus, a stopped timer with its settings kept, and no overlay reference; an attached overlay is handed to a zoom-out (one more closing), and nothing is made or deleted |
| `DebouncedOverlay.ExitFinishedEvent` | grid_button.py:138-142 | the end of one zoom-out deletes exactly that detached overlay: one fewer closing, one more deleted, nothing made, everything else unchanged |
| `DebouncedOverlay.StepPreservesInv` | grid_button.py:35-39 | every possible event keeps the timer a 100 ms single-shot one; a running timer or an attached overlay implies focus, never both at once; live overlays are the attached one plus those zooming out |
| `DebouncedOverlay.RunPreservesInv` | grid_button.py:62-125 | the invariant holds after every run of events that can occur |
| `DebouncedOverlay.ReachableTilesKeepInv` | grid_button.py:35-39 | every tile reachable from a new one keeps the invariant, so its timer stays a 100 ms single-shot timer |
| `DebouncedOverlay.TimeoutNeverReplacesOverlay` | grid_button.py:69-76 | when the timer fires no overlay is attached, so none is overwritten and lost |
| `DebouncedOverlay.QuickPassMakesNoOverlay` | grid_button.py:111-114 | focus-in then focus-out before the timer fires makes no overlay and leaves the timer stopped |
| `DebouncedOverlay.NoTimeoutNoOverlay` | grid_button.py:64-76 | a run in which the timer never fires makes no overlay at all |
| `DebouncedOverlay.TwoOverlaysCanBeAlive` | grid_button.py:123-125 | because closing detaches at once, a new overlay can be made while the previous one is still zooming out |

## Left out

- Layout.Populate: always places every record. In the source, `create_game_button` reads `game_data['name']` when a record's image fails to load (`launcher.py` line 140, `Inter.py` line 419), so a record with an unloadable image and no `name` raises `KeyError` partway through the grid. That path is dropped because image loading is outside the model.
- Image handling: pixmap loading and scaling, rounded corners (`rounded_pixmap`), icons. Only "the icon is null" is kept, as an input.
- Animations: easing, durations and the glow's blur radius are time-based floating-point effects. `ImmediateOverlay` keeps the zoom-in and zoom-out end rectangles and the "finished" event. `DebouncedOverlay` keeps the zoom-in end rectangle, but a detached overlay is only counted (`closing`): its zoom-out end rectangle (`grid_button.py` line 129) is dropped.
- Qt geometry: `QRect.center()`, `mapTo` window coordinates and `QGridLayout.rowCount()` are inputs. Their relation to the tile is stated only where a lemma needs it (`NearCentre`, `RowCount`).
- File and process I/O: loading the games list and its missing-file fallback, the background GIF or static image, window resizing, and the actual process spawn. A spawn is modelled as the command chosen plus the operating system's answer.
- Styling (`styles.py`) and start-up (`main.py`): they hold no logic.
- The click wiring of `Inter.py` line 75: it goes through the toolkit's parent chain.
- Scroll-follow (`ensureWidgetVisible`): the scroll area is toolkit state.
- The default-handler branch of the free `keyPressEvent` function (`grid_button.py` line 181). Keys other than arrows and activation keys yield `Passed`. What that call would do is not modelled.
- Geometry.Grow: `int(base * 1.30)` is computed as the exact `floor(base * 130 / 100)`. Double-precision rounding of `1.30` is not modelled. For cover-sized inputs it gives the same integers.
- Games.Record: record fields are strings. A JSON value of another type (number, list, null) under `path`, `emulator`, `rom` or `name` is not modelled.
- ImmediateOverlay.ExitFinishedEvent: one "finished" event ends all pending zoom-outs. Every zoom-out animation is a child of the overlay, so deleting the overlay discards the others. That toolkit ownership rule is assumed, not modelled.
- Event ordering: focus-in and focus-out alternate, the timer fires only while active, and a zoom-out ends only after it has started (`Enabled`). A focus-in on an already focused tile is outside the model.
