# push-files session model

A Dafny model of the interactive session of `push-files`, a terminal
dashboard in which an operator marks changed files, types a commit message
and a pull-request title, and confirms. The whole behaviour lives in
`src/main.rs`: the `App` record (file list, list cursor, two text buffers,
input mode, quit flag), its methods `next`, `previous`, `toggle_selected` and
`create_commit_and_pr`, the key dispatch inside `run_app`, and the text and
emphasis that `ui` puts on screen.

Layout:

- `session.dfy` (module `Session`): the record as a value (`AppState`), the
  session invariant `Valid` (non-empty list, cursor on a row), the start
  state, and the request a confirmation fires with.
- `navigation.dfy` (module `Navigation`): `next`, `previous` and
  `toggle_selected` as functions of the old values, with wraparound,
  inverse, full-cycle and involution lemmas.
- `ui.dfy` (module `Ui`): the row labels (`"[x] "`/`"[ ] "` + name), the
  emphasis of the two text fields, and the frame `Render` of a session.
- `dispatch.dfy` (module `Dispatch`): terminal events, the loop body of
  `run_app` as `Step`, and the loop over a finite event sequence as `Run`.
- `dispatch_properties.dfy` (module `DispatchProperties`): the mode table,
  buffer isolation, the Ctrl+C interrupt, confirmation, and how runs compose.
- `runtime.dfy` (module `Runtime`): the class `App` whose methods update its
  fields in place, each proved against the functions above, and `RunApp`,
  the loop itself, proved against `Run`.
- `scenarios.dfy` (module `Scenarios`): short concrete sessions.

Where the system's documented design and its code differ, the model
follows the code:

- Navigation on an empty list is not a no-op: `next` computes `% 0` and
  `previous` computes `len() - 1` on an unsigned length, and
  `toggle_selected` would index out of bounds with the cursor the program
  sets at start-up. The model therefore keeps the list non-empty as the
  session invariant, and the functions for `next`/`previous` require it.
- The cursor is set to row 0 before the first frame (`src/main.rs:109`);
  `None` is still handled and sends both movements to row 0.
- The Ctrl+C test compares the modifier set for equality with Control alone,
  so Ctrl+Shift+C is not an interrupt; it is modelled that way.
- In an edit mode every character key is appended, whatever modifiers are
  held (Ctrl+A appends `a`); `q` is appended there too.
- The commit/pull-request action is a stub that prints the two buffers and
  changes nothing; the model hands it the names of the selected files in
  list order together with both buffers, verbatim.

## Model

| member | source | states |
|---|---|---|
| `Session.Initial` | src/main.rs:52-59 | the start state satisfies the invariant, has both buffers empty, `Normal` mode, no quit, cursor on row 0 |
| `Session.SelectedNames` | src/main.rs:92-96 | a name is in the result iff some selected entry has it; never longer than the list |
| `Session.SelectedNamesConcat` | src/main.rs:92-96 | the names keep list order: the selection of `a + b` is the selection of `a` followed by that of `b` |
| `Session.Request` | src/main.rs:92-96 | a confirmation carries both buffers verbatim and exactly the names of the selected entries |
| `Navigation.NextIndex` | src/main.rs:64-70 | the new row is in range; `None` goes to 0; one row down, and from the last row back to 0 |
| `Navigation.PreviousIndex` | src/main.rs:72-84 | the new row is in range when the cursor was; `None` goes to 0; row 0 goes to the last row; otherwise one row up |
| `Navigation.Toggled` | src/main.rs:86-90 | same length and names; an entry's mark flips iff it is under the cursor; no cursor leaves the list unchanged |
| `Navigation.PreviousUndoesNext` | src/main.rs:64-84 | `previous` after `next` returns to every starting row |
| `Navigation.NextUndoesPrevious` | src/main.rs:64-84 | `next` after `previous` returns to every starting row |
| `Navigation.Advance` | src/main.rs:64-70 | any number of `next` presses keeps the cursor on a row |
| `Navigation.AdvanceCompose` | src/main.rs:64-70 | `a` presses of `next` followed by `b` presses equal `a + b` presses |
| `Navigation.AdvanceWithinOneCycle` | src/main.rs:64-70 | fewer than `len` presses move `k` rows down, wrapping past the end at most once |
| `Navigation.AdvanceFullCycle` | src/main.rs:64-70 | pressing `next` once per file returns the cursor to its starting row |
| `Navigation.SingleFileNavigation` | src/main.rs:64-84 | with one file both movements leave the cursor on row 0 |
| `Navigation.ToggleTwice` | src/main.rs:86-90 | toggling twice at the same cursor restores the list |
| `Ui.Marker` | src/main.rs:204 | the four-character mark is `[x] ` when the file is selected and `[ ] ` when it is not |
| `Ui.Label` | src/main.rs:203-206 | a row is the file's four-character mark followed by exactly its name |
| `Ui.ParseLabel` | src/main.rs:203-206 | any row that reads back as an entry is exactly that entry's label (the converse of `LabelRoundTrip`) |
| `Ui.LabelRoundTrip` | src/main.rs:203-206 | a row reads back as exactly its file's name and selection |
| `Ui.LabelInjective` | src/main.rs:203-206 | two entries with the same row text are the same entry |
| `Ui.Labels` | src/main.rs:200-207 | one row per file, in list order, each the file's label |
| `Ui.CommitStyle` | src/main.rs:221-224 | the commit-message field is emphasised iff the mode is `CommitMessage` |
| `Ui.PrStyle` | src/main.rs:234-237 | the pull-request-title field is emphasised iff the mode is `PRTitle` |
| `Ui.StyleFollowsMode` | src/main.rs:221-237 | the two fields are never emphasised at the same time |
| `Ui.Render` | src/main.rs:189-239 | the frame lists every file in order, highlights the cursor row, shows both buffers, and emphasises the field being edited |
| `Dispatch.Pop` | src/main.rs:163-165 | Backspace on an empty buffer leaves it empty, otherwise drops exactly the last character |
| `Dispatch.NormalKey` | src/main.rs:138-155 | a `Normal`-mode key keeps the invariant, the names and both buffers, never clears a set cursor, opens the commit editor iff `c` and the title editor iff `p`, and confirms iff Enter, changing nothing and carrying the current request |
| `Dispatch.EditBuffer` | src/main.rs:160-165 | a character is appended after the whole buffer, Backspace pops the last character, any other key leaves the buffer as it was |
| `Dispatch.EditKey` | src/main.rs:156-179 | an edit-mode key keeps the list, cursor and quit flag; returns to `Normal` iff Esc; appends a character to, or pops, only the active buffer; Esc leaves both buffers |
| `Dispatch.Step` | src/main.rs:133-180 | every event keeps the invariant, the list length and the names, and a set cursor stays set; a confirmation changes nothing and carries the current request; Ctrl+C changes nothing |
| `Dispatch.Run` | src/main.rs:129-187 | a run reads at most the given events, all of them when it is still waiting, at least one when it stopped; a quit run has the quit flag set; a set cursor stays set; one frame per event read |
| `DispatchProperties.InterruptFromAnyMode` | src/main.rs:134-136 | Ctrl+C (`Dispatch.IsInterrupt`: `c` with exactly Control) interrupts in every mode and nothing else does; the session is left as it was |
| `DispatchProperties.CharEditsOnlyActiveBuffer` | src/main.rs:156-179 | in an edit mode a character is appended to that mode's buffer only; list, cursor, mode, quit flag and the other buffer are unchanged |
| `DispatchProperties.AppendThenBackspace` | src/main.rs:160-177 | a typed character followed by Backspace restores the session |
| `DispatchProperties.BackspaceOnEmpty` | src/main.rs:163-177 | Backspace with the active buffer empty changes nothing |
| `DispatchProperties.EscLeavesEditMode` | src/main.rs:157-171 | Esc in an edit mode returns to `Normal` and changes nothing else |
| `DispatchProperties.QuitKeyByMode` | src/main.rs:139-173 | `q` sets the quit flag only in `Normal`; in an edit mode it is appended to that buffer |
| `DispatchProperties.NormalModeKeys` | src/main.rs:138-150 | `j`, `k`, space, `c`, `p` in `Normal` move, toggle or open an editor; Ctrl+C is an interrupt rather than `c` |
| `DispatchProperties.ConfirmOnlyInNormal` | src/main.rs:151-153 | a confirmation fires iff the mode is `Normal` and the key is Enter |
| `DispatchProperties.RepeatedConfirm` | src/main.rs:92-96 | confirming leaves the session as it was, so a second Enter fires the same request |
| `DispatchProperties.UnhandledEventsAreNoOps` | src/main.rs:133-179 | non-key events and keys outside a mode's table change nothing and fire nothing |
| `DispatchProperties.HighlightShowsInputTarget` | src/main.rs:221-237 | a typed character changes a buffer iff that buffer's field is drawn emphasised |
| `DispatchProperties.RunIgnoresEventsAfterExit` | src/main.rs:129-187 | events after the one that ends the run are never read |
| `DispatchProperties.RunContinues` | src/main.rs:129-187 | a run that read all of `a` continues with `b` from the state it reached, appending frames and confirmations |
| `DispatchProperties.InterruptEndsRun` | src/main.rs:134-136 | Ctrl+C after any events ends the run at once with no further confirmation and the session as it was |
| `DispatchProperties.RunSnoc` | src/main.rs:130-186 | one more event after a waiting run draws a frame of the state reached, then leaves `Step`'s state with its confirmation appended and ends the run only on Ctrl+C (state unchanged) or the quit flag |
| `DispatchProperties.QuitEndsRun` | src/main.rs:183-185 | an event that sets the quit flag after any events ends the run at once, in the state it left, with that event's confirmation appended, reading no later event |
| `Runtime.App.constructor` | src/main.rs:108-109 | the new app holds the start state for the given files |
| `Runtime.App.Next` | src/main.rs:64-70 | only the cursor changes, to the row `NextIndex` gives |
| `Runtime.App.Previous` | src/main.rs:72-84 | only the cursor changes, to the row `PreviousIndex` gives |
| `Runtime.App.ToggleSelected` | src/main.rs:86-90 | only the list changes, to `Toggled` of the old list at the cursor |
| `Runtime.App.CreateCommitAndPr` | src/main.rs:92-96 | returns the request for the current session and changes nothing |
| `Runtime.App.HandleEvent` | src/main.rs:133-180 | the new fields and the effect are exactly those of `Step` |
| `Runtime.RunApp` | src/main.rs:129-187 | the loop ends in the state, with the confirmations and exit of `Run`, and draws `Run`'s frames plus the waiting frame when input runs out |
| `Scenarios.ToggleAndNavigate` | src/main.rs:142-144 | from three unselected files, space, `j`, `j`, space selects the first and third and leaves the cursor on row 2 |
| `Scenarios.EditCommitMessage` | src/main.rs:145-165 | `c`, `f`, `i`, `x`, Backspace, Esc leaves "fi" in the commit message and `Normal` mode |
| `Scenarios.InterruptWhileEditingTitle` | src/main.rs:134-136 | Ctrl+C while a title is half typed ends the session with no confirmation; later keys are not read |
| `Scenarios.ConfirmTwiceThenQuit` | src/main.rs:139-153 | two Enters fire the same request twice, then `q` quits |

## Left out

- Terminal set-up and tear-down (raw mode, alternate screen, mouse capture, showing the cursor) and the error that `main` prints: terminal I/O with nothing to state.
- Layout, borders, titles and colours of the widgets: library calls; the model keeps the row texts, the highlighted row and a plain/emphasised style per field.
- The list widget's scroll offset, which rendering may adjust in the list state: library internals; only the selected row is modelled.
- `terminal.draw` and `event::read`: replaced by a given finite sequence of events; when it runs out the loop is modelled as drawing one more frame and stopping, where the program would block.
- Failures of drawing or reading (the `?` on both): terminal driver errors are not modelled.
- Key event kinds (press, release, repeat) and the key codes the program ignores (arrows, function keys, Tab, ...): the program does not look at the kind, and every ignored code is `OtherKey`.
- The `println!` output of `create_commit_and_pr`: standard output; the model returns the request instead.
- The mock file list of `App::default`: the model starts from any non-empty list.
- An empty file list: the program panics on it; the model requires a non-empty list.
- Staging, committing and opening a pull request: no such code exists in the program.
