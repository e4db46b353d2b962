# codecraft pseudocode toolchain, modelled in Dafny

codecraft is a browser puzzle game. The player writes a short pseudocode
program that steers a robot over a grid of tiles (empty, wall, start, goal,
berry) towards the goal. This project models the parts of the game that turn
text into robot behaviour and the editing rules around them:

- **the interpreter** (`Interpreter`, `interpreter.dfy`): lines are split on
  `\r?\n`, trimmed and filtered for blanks; `MOVE`, `TURN LEFT` and
  `TURN RIGHT` each append one state to the history, every other line is
  ignored. `ExecutePseudoCode` is the loop, proved against the recursive
  specification `Trace`.
- **the command registry** (`Commands`, `commands.dfy`): the thirteen entries
  of `PSEUDOCODE_COMMANDS`, each anchored pattern written as the one string it
  accepts; the MOVE and TURN executors as functions; PICKUP as an in-place
  update of a berry map held by the class `Berries`.
- **the validator** (`Validation`, `validation.dfy`): a loop over the lines
  that reports every non-blank line outside a fixed allow-list, proved against
  the specification `Errors`.
- **the editor's key handling** (`CodeEditor`, `code_editor.dfy`): Tab,
  Shift+Tab, Enter and Backspace as functions from text and selection to a new
  text and caret, with JavaScript's `slice` and `lastIndexOf` semantics written
  out (positions counted in characters, see "Left out"); the gutter's line
  count.
- **the level builder** (`LevelBuilder`, `level_builder.dfy`): the page state as
  the class `LevelEditor`, tile placement with its at-most-one start and goal
  rule, the grid reset after a size change, `buildLevel` with its defaults and berry count, the validation gate in
  front of a test run, and the verdict after a run.

Shared pieces: `Levels` (tile, direction, robot state, level descriptor and the
first built-in level as a fixture), `JsText` (`trim`, `split(/\r?\n/)`,
`slice`, `lastIndexOf`, leading-space match, integer rendering) and `Wrappers`
(`Option`).

Other parts of the repository expect more of this code than it does. The
player's syntax help (`SYNTAX_HELP`, src/levels/levels.ts:14-50) offers
`IF <condition> … [ELSE …] END` and `WHILE <condition> … END` blocks, the
registry describes every IF, WHILE and ELSE header as opening a "block by
indentation" (src/utils/pseudocodeCommands.ts:84-140), and the builder page
reads `result.states` and `result.berries` from the interpreter
(src/app/create/page.tsx:240-251). The code modelled here has none of it: the
interpreter is one flat pass that returns only the array of states (IF and
WHILE are a comment at src/utils/pseudocodeInterpreter.ts:50), and the
validator's allow-list holds `IF PATH AHEAD`, `WHILE PATH AHEAD` and `END`,
a vocabulary that differs from both the help and the registry. The model
follows the code. `Validation.RejectsRegistryVocabulary`
and `Validation.Level1SolutionRejected` state the mismatch: the first level's
own solution fails validation on its `PICKUP` line.

## Model

| member | source | states |
|---|---|---|
| Interpreter.Turn | src/utils/pseudocodeInterpreter.ts:10-16 | a turn always changes the direction, and moves its index on the cycle up, right, down, left by three (left) or one (right), modulo 4 |
| Interpreter.TurnTable | src/utils/pseudocodeInterpreter.ts:10-16 | the eight results of turning left or right from each direction on the cycle up, right, down, left |
| Interpreter.TurnInverse | src/utils/pseudocodeInterpreter.ts:10-16 | a left turn and a right turn undo each other in either order, and neither keeps the direction |
| Interpreter.FourTurns | src/utils/pseudocodeInterpreter.ts:10-16 | four turns in the same sense bring back the original direction |
| Interpreter.Move | src/utils/pseudocodeInterpreter.ts:18-30 | the direction is kept; when the cell ahead is on the grid and not a wall the robot stands on it, otherwise the state is returned unchanged |
| Interpreter.MoveAvoidsWalls | src/utils/pseudocodeInterpreter.ts:26-29 | a move that changes the state ends on a passable cell, so a robot off the walls never moves onto one |
| Interpreter.Step | src/utils/pseudocodeInterpreter.ts:39-49 | a line yields a new state exactly when it is MOVE, TURN LEFT or TURN RIGHT |
| Interpreter.TrimAll | src/utils/pseudocodeInterpreter.ts:35 | one trimmed string per input line, in order |
| Interpreter.ProgramLines | src/utils/pseudocodeInterpreter.ts:33-36 | a string is a program line exactly when it is non-empty and is the trim of some piece of the `\r?\n` split of the code |
| Interpreter.NonBlank | src/utils/pseudocodeInterpreter.ts:36 | no kept line is empty, and a string is kept exactly when it is a non-empty input line |
| Interpreter.NonBlankMultiset | src/utils/pseudocodeInterpreter.ts:36 | every non-empty line is kept as often as it occurs and every empty one is dropped |
| Interpreter.NonBlankAppend | src/utils/pseudocodeInterpreter.ts:36 | the filter of a concatenation is the concatenation of the filters, so the kept lines keep their order |
| Interpreter.Trace | src/utils/pseudocodeInterpreter.ts:37-52 | the history is never empty and begins with the start state |
| Interpreter.ExecutePseudoCode | src/utils/pseudocodeInterpreter.ts:32-53 | the loop's history equals the trace of the program lines, starts at `level.start` and has one entry more than there are MOVE, TURN LEFT and TURN RIGHT lines among the trimmed lines |
| Interpreter.ProgramTraceLength | src/utils/pseudocodeInterpreter.ts:35-52 | the history of a program has one entry more than there are acting lines among its trimmed lines |
| Interpreter.TraceLength | src/utils/pseudocodeInterpreter.ts:39-51 | the history length is one plus the number of acting lines |
| Interpreter.BlankLinesCountNothing | src/utils/pseudocodeInterpreter.ts:36 | dropping blank lines does not change the number of acting lines |
| Interpreter.IgnoredLineAddsNothing | src/utils/pseudocodeInterpreter.ts:39-50 | a line other than the three commands leaves the whole trace unchanged |
| Interpreter.BlockedMoveRepeatsState | src/utils/pseudocodeInterpreter.ts:40-42 | a blocked MOVE still appends a copy of the current state |
| Interpreter.TraceStepsAreAdjacent | src/utils/pseudocodeInterpreter.ts:39-49 | consecutive history entries are one action apart: the same cell with the direction turned a quarter, or the same direction with the cell unchanged or one step ahead |
| Interpreter.TraceAvoidsWalls | src/utils/pseudocodeInterpreter.ts:37-49 | when the start is not on a wall, no history entry is on a wall |
| Interpreter.Level1Lines | src/levels/levels.ts:64 | the first level's solution runs as the lines MOVE, PICKUP, MOVE |
| Interpreter.Level1Solution | src/levels/levels.ts:53-66 | on the first level that solution gives the history (1,1,right), (2,1,right), (3,1,right): PICKUP adds nothing |
| Commands.Registry | src/utils/pseudocodeCommands.ts:21-143 | the registry has thirteen entries and no two share a name |
| Commands.AtMostOneMatch | src/utils/pseudocodeCommands.ts:21-143 | at most one entry's pattern accepts a given line |
| Commands.ControlHeadersHaveNoExecutor | src/utils/pseudocodeCommands.ts:80-142 | an entry lacks an executor exactly when its name is one the editor treats as opening a block (starts with `IF ` or `WHILE `, or is `ELSE`) |
| Commands.InterpreterPrimitivesAreRegistered | src/utils/pseudocodeCommands.ts:22-68 | the lines the interpreter acts on are exactly the names of the entries whose executor returns a state |
| Commands.ExecuteMove | src/utils/pseudocodeCommands.ts:27-43 | the MOVE executor keeps the direction |
| Commands.MoveExecutorAgrees | src/utils/pseudocodeCommands.ts:27-43 | the MOVE executor and the interpreter's `move` give the same state for every state and grid |
| Commands.DirsIndexOf | src/utils/pseudocodeCommands.ts:51-52 | the index found is in range and holds the direction searched for |
| Commands.ExecuteTurnLeft | src/utils/pseudocodeCommands.ts:50-55 | the TURN LEFT executor keeps x and y, changes the direction, and gives the interpreter's left turn |
| Commands.ExecuteTurnRight | src/utils/pseudocodeCommands.ts:62-67 | the TURN RIGHT executor keeps x and y, changes the direction, and gives the interpreter's right turn |
| Commands.TurnExecutors | src/utils/pseudocodeCommands.ts:50-67 | TURN LEFT maps index i to (i + 3) mod 4 and TURN RIGHT to (i + 1) mod 4, both keep x and y, they undo each other and agree with the interpreter's `turn` |
| Commands.Key | src/utils/pseudocodeCommands.ts:75 | the key holds a comma; the text before the first comma reads back as x and the text after it as y |
| Commands.KeyInjective | src/utils/pseudocodeCommands.ts:75 | different cells have different `x,y` keys |
| Commands.Collect | src/utils/pseudocodeCommands.ts:74-77 | a pickup keeps the set of keys, leaves the key's entry true when it is present, and keeps every other entry |
| Commands.CollectFrame | src/utils/pseudocodeCommands.ts:74-77 | a pickup adds and removes no key, sets the key's entry to true, leaves every other entry alone, and changes the map exactly when the entry was false |
| Commands.CollectIdempotent | src/utils/pseudocodeCommands.ts:76 | picking up twice at a cell equals picking up once |
| Commands.Berries.constructor | src/utils/pseudocodeCommands.ts:16 | the berry map starts as given |
| Commands.Berries.Pickup | src/utils/pseudocodeCommands.ts:74-77 | the map afterwards is the pickup of the old map at the robot's key |
| Commands.Execute | src/utils/pseudocodeCommands.ts:27-77 | MOVE and the turns return their new state and leave the berry map alone; PICKUP returns nothing and updates the map |
| Validation.AllowedCommands | src/utils/pseudocodeValidation.ts:6-12 | the allow-list accepts six texts, neither the empty text nor PICKUP among them |
| Validation.ValidatePseudoCode | src/utils/pseudocodeValidation.ts:14-29 | the loop's error list equals the specification `Errors` of the split lines |
| Validation.ErrorsWellFormed | src/utils/pseudocodeValidation.ts:17-27 | every error names an existing rejected line, 1-based, its message embeds that line's trimmed text, and line numbers strictly increase |
| Validation.Errors | src/utils/pseudocodeValidation.ts:17-27 | there are never more errors than lines |
| Validation.ReportedIff | src/utils/pseudocodeValidation.ts:18-26 | line k is reported if and only if it exists, its trimmed text is not empty and not on the allow-list |
| Validation.BlankLineNotReported | src/utils/pseudocodeValidation.ts:18-19 | a blank or whitespace-only line is never reported |
| Validation.NoErrorsIff | src/utils/pseudocodeValidation.ts:14-29 | the list is empty exactly when no line is rejected |
| Validation.ErrorsDependOnTrim | src/utils/pseudocodeValidation.ts:18 | two programs whose lines trim to the same texts get the same errors |
| Validation.IndentationIrrelevant | src/utils/pseudocodeValidation.ts:18 | indenting any line by any number of spaces leaves the errors unchanged |
| Validation.RejectsRegistryVocabulary | src/utils/pseudocodeValidation.ts:6-12 | PICKUP and all IF, WHILE and ELSE headers of the registry are rejected |
| Validation.ValidProgramLinesAllowed | src/utils/pseudocodeValidation.ts:14-29 | after a clean validation every line the interpreter walks through is allowed, and the ones it ignores are IF PATH AHEAD, WHILE PATH AHEAD or END |
| Validation.Level1SolutionRejected | src/levels/levels.ts:64 | the first level's solution gets exactly one error, on line 2, for PICKUP |
| CodeEditor.LineStart | src/components/CodeEditor.tsx:34 | the line start the handlers compute lies within the text |
| CodeEditor.TabKey | src/components/CodeEditor.tsx:22-29 | the selection is replaced by two spaces, the text around it is kept, and the caret follows the spaces |
| CodeEditor.ShiftTabKey | src/components/CodeEditor.tsx:32-41 | the line's first two characters are removed if and only if both are spaces, the caret moves two left; otherwise nothing changes and the key is swallowed |
| CodeEditor.TabShiftTabRoundTrip | src/components/CodeEditor.tsx:22-41 | Tab then Shift+Tab at a line start with no selection restores text and caret |
| CodeEditor.OpensBlock | src/components/CodeEditor.tsx:49 | a text that opens a block is neither empty nor one of the three commands the interpreter executes |
| CodeEditor.NewIndent | src/components/CodeEditor.tsx:44-50 | the new indentation is the line's leading spaces up to the caret, plus two when the trimmed text starts with `IF ` or `WHILE ` or is `ELSE` |
| CodeEditor.EnterKey | src/components/CodeEditor.tsx:43-58 | the selection becomes a line break and the new indentation, the caret lands after them |
| CodeEditor.EnterOpensIndentedLine | src/components/CodeEditor.tsx:43-58 | after Enter the caret's line starts right after the break, holds exactly the new indentation before the caret, and continues with the text after the selection |
| CodeEditor.PrevIndent | src/components/CodeEditor.tsx:65-67 | the indentation read from the previous line consists of spaces only and is no longer than the text |
| CodeEditor.BackspaceKey | src/components/CodeEditor.tsx:61-80 | with an empty selection at a line start, two leading spaces go if and only if they are there and the previous line is indented by at least two; the caret stays; otherwise the browser's own Backspace applies |
| CodeEditor.HandleKeyDown | src/components/CodeEditor.tsx:17-81 | Tab is always taken over, Enter always edits, Backspace is never merely swallowed, and other keys are left to the browser |
| CodeEditor.LineCount | src/components/CodeEditor.tsx:13-14 | the gutter shows the larger of 8 and the number of lines, that is, newlines plus one |
| CodeEditor.CaretLineStart | src/components/CodeEditor.tsx:34 | the start of the caret's line: at or before the caret, after a line break or at 0, with no break in between |
| CodeEditor.LineStartAgrees | src/components/CodeEditor.tsx:34 | away from position 0 the source's line start is the caret's line start |
| CodeEditor.LineStartAtZero | src/components/CodeEditor.tsx:34 | at position 0 of a text that begins with a break, the source's line start is 1 |
| CodeEditor.ShiftTabCorrected | src/components/CodeEditor.tsx:32-41 | Shift+Tab on the caret's own line, with the caret kept between the line start and its old place |
| CodeEditor.ShiftTabCorrectedKeepsLine | src/components/CodeEditor.tsx:32-41 | after the corrected Shift+Tab the caret is still on the line that lost its indentation |
| CodeEditor.ShiftTabCorrectedAgrees | src/components/CodeEditor.tsx:32-41 | with the caret two or more into its line, the corrected and the source Shift+Tab agree |
| CodeEditor.ShiftTabCaretLeavesLine | src/components/CodeEditor.tsx:38 | on "A\n  B" with the caret at 2, the source's caret goes to 0, on the line above |
| CodeEditor.ShiftTabAtZeroHitsNextLine | src/components/CodeEditor.tsx:34-36 | on "\n  B" with the caret at 0, the source de-indents the second line |
| CodeEditor.BackspaceCorrected | src/components/CodeEditor.tsx:60-80 | with an empty selection at the start of a line below the first, the two spaces that begin the line go exactly when the line that really precedes it also begins with two spaces, and the caret stays at the start of its line; on the first line, and in every other case, the browser's own Backspace applies |
| CodeEditor.BackspaceCorrectedAgrees | src/components/CodeEditor.tsx:60-80 | below the first line the corrected Backspace and the source's agree |
| CodeEditor.BackspaceAtTopUsesWholeText | src/components/CodeEditor.tsx:65-67 | on "  A" at 0 the source reads "  " as the previous line's indentation and removes the two spaces |
| LevelBuilder.SetCell | src/app/create/page.tsx:170-174 | writing a cell of the copy changes that cell only and keeps the shape |
| LevelBuilder.EmptyGrid | src/app/create/page.tsx:137-141 | the initial grid is square and all empty |
| LevelBuilder.TrackedAtMostOne | src/app/create/page.tsx:172-180 | a tile tracked by one position occurs in at most one cell |
| LevelBuilder.Placed | src/app/create/page.tsx:168-189 | placing keeps the grid square and the remembered positions on it |
| LevelBuilder.PlacedKeepsAtMostOne | src/app/create/page.tsx:171-186 | after any placement every start cell is at the remembered start and every goal cell at the remembered goal, so there is at most one of each |
| LevelBuilder.PlacedFrame | src/app/create/page.tsx:168-189 | cell (x, y) holds the tile; only it and the previous start or goal cell change, the latter becoming empty; the remembered positions follow the placement |
| LevelBuilder.PlacedLeavesStalePosition | src/app/create/page.tsx:171-180 | on every consistent board with a start, placing the goal on the start cell keeps the start position on a cell that is no longer a start, and a later start on any other cell erases the goal tile while the goal position still names it |
| LevelBuilder.PlacedCorrected | src/app/create/page.tsx:168-189 | the placement with the overwritten start or goal position cleared; keeps the board shape |
| LevelBuilder.PlacedCorrectedKeepsConsistent | src/app/create/page.tsx:168-189 | the corrected placement keeps each remembered position on a cell holding its tile, and at most one start and goal |
| LevelBuilder.PlacedCorrectedAgrees | src/app/create/page.tsx:168-189 | outside the start-on-goal and goal-on-start cases the corrected placement is the source's |
| LevelBuilder.Resized | src/app/create/page.tsx:152-165 | after a size change the grid has the new size, a cell holds the start exactly where the start was remembered, the goal exactly where the goal was remembered and no start is, every other cell is empty, and both positions are forgotten |
| LevelBuilder.ResizeThenPlaceDuplicatesStart | src/app/create/page.tsx:152-180 | on every consistent board whose start fits the new size, the reset keeps the start tile with no remembered start, and placing a start on any other cell then leaves two starts |
| LevelBuilder.ResizedCorrected | src/app/create/page.tsx:152-165 | the reset that remembers the start and goal it keeps; the board fits the new size |
| LevelBuilder.ResizedCorrectedKeepsConsistent | src/app/create/page.tsx:152-165 | the corrected reset turns a consistent board into a consistent board of the new size |
| LevelBuilder.ResizedCorrectedAgrees | src/app/create/page.tsx:152-165 | when both positions fit the new size, the corrected reset builds the same grid as the source |
| LevelBuilder.BerryCount | src/app/create/page.tsx:222 | the berry count is at most the number of cells, and zero exactly when no row holds a berry |
| LevelBuilder.BerryCountSetCell | src/app/create/page.tsx:222 | writing one cell changes the berry count by the berry removed and the berry added |
| LevelBuilder.PlacedBerryCount | src/app/create/page.tsx:168-189 | on a consistent board a corrected placement changes the berry count only through cell (x, y) |
| LevelBuilder.AllCollected | src/app/create/page.tsx:251 | every berry is collected exactly when a pickup at any of their keys would change nothing |
| LevelBuilder.Judge | src/app/create/page.tsx:250-266 | success if and only if the last state is on the goal and every berry is collected; missing berries are reported whatever the position; otherwise the goal was missed |
| LevelBuilder.CollectEachAll | src/app/create/page.tsx:251 | picking up on a list of cells collects everything if and only if every uncollected berry lies on one of them |
| LevelBuilder.ErrorLog | src/app/create/page.tsx:235 | a console line starts with `> Error (line `, then the line number in decimal, which reads back as the number, then `): ` and the message |
| LevelBuilder.ErrorLogs | src/app/create/page.tsx:233-236 | one console line per validation error, in order |
| LevelBuilder.LevelEditor.constructor | src/app/create/page.tsx:136-149 | the page starts with a 5-by-5 empty grid, the wall tile selected, no start and no goal |
| LevelBuilder.LevelEditor.PlaceTile | src/app/create/page.tsx:168-189 | the new grid and positions are the placement of the selected tile, nothing else on the page changes, the board still fits the grid size, and a board with at most one start and goal keeps that |
| LevelBuilder.LevelEditor.SetGridSize | src/app/create/page.tsx:152-165 | a new size rebuilds the board as the reset does and forgets both positions, the same size changes nothing, and nothing else on the page changes |
| LevelBuilder.LevelEditor.BuildLevel | src/app/create/page.tsx:210-225 | the id is 9999 and the difficulty is passed through; the name is the page's name or "Untitled" when that is empty; a remembered start or goal is used, otherwise the start is (0, 0) facing right and the goal (gridSize - 1, gridSize - 1); grid and texts are passed through; the berry count is the number of berry cells; on a valid non-empty grid the start and goal lie on it |
| LevelBuilder.LevelEditor.TestSolution | src/app/create/page.tsx:227-240 | a solution is run if and only if it validates; otherwise the console lists its errors; a run's history is the interpreter's trace on the built level |
| LevelBuilder.GatedRunIsSafe | src/app/create/page.tsx:232-240 | a solution that passes the gate, run from a start off the walls, never puts the robot on a wall and runs only allowed lines |
| JsText.Trim | src/utils/pseudocodeValidation.ts:18 | trimming never lengthens a line |
| JsText.TrimEmptyIff | src/utils/pseudocodeValidation.ts:19 | a trimmed line is empty exactly when the line is all whitespace |
| JsText.TrimIgnoresIndent | src/utils/pseudocodeValidation.ts:18 | trimming ignores any number of leading spaces |
| JsText.SplitLines | src/utils/pseudocodeValidation.ts:15 | splitting gives one piece more than there are line feeds, none containing a line feed |
| JsText.Slice | src/components/CodeEditor.tsx:24-25 | within bounds `slice` is the subsequence between the indices |
| JsText.LastIndexOf | src/components/CodeEditor.tsx:34 | the result is -1 or an index holding the character, at or before the start position clamped to 0, with no match after it up to that position |

## Left out

- IF, WHILE, ELSE and END are not executed by the interpreter modelled here, so there is no block structure to model; the interpreter ignores those lines and the model proves that.
- The registry's `description`, `example` and `validate` fields are not modelled; the patterns have no wildcards, so each is the string it accepts.
- The caret written to the textarea inside `setTimeout` is returned as a value, and a negative caret is returned as it is computed; what the browser then does with it is not modelled, and neither is the null check on the textarea reference.
- Positions are counted in characters of Dafny's `string`, which holds Unicode scalar values; JavaScript's `slice`, `lastIndexOf`, `selectionStart` and `selectionEnd` count UTF-16 code units. Text with characters outside the Basic Multilingual Plane therefore has different positions in the model than in the browser, and the editor handlers are exact only on text without such characters.
- `CodeEditor.LineStart` models `lastIndexOf` as specified for one-character needles, including the clamping of a negative start position; `CodeEditor.CaretLineStart` is the line start of the caret's own line, and the two are proved equal away from position 0.
- The `\r` of a `\r\n` pair is consumed by the line split, as `split(/\r?\n/)` does; a lone `\r` stays in its line, and `trim` removes it only at the start or end of the line; one in the middle stays part of the line's text.
- The page reads `result.states` and `result.berries` from `executePseudoCode`, which returns a bare array; as written the page would fail at `history.length`. `LevelBuilder.LevelEditor.TestSolution` returns the interpreter's array as the history, and `LevelBuilder.Judge` takes the berry map as an input because this interpreter produces none.
- `handleSimulate` (src/app/create/page.tsx:287-339) has the same gate and verdict as `handleTestSolution` and is covered by the same members.
- The step-by-step replay with delays, the console's step lines, the running and success flags, the save button and `localStorage`, the Split.js layout and all rendering are presentation or I/O and are not modelled.
- The grid reset runs as a React effect after the size select changes `gridSize`; `LevelBuilder.LevelEditor.SetGridSize` performs the change and the reset in one step. The effect's first run on mount finds no positions and builds the same empty grid as the constructor.
- `LevelBuilder.LevelEditor.PlaceTile` requires only that the grid is gridSize-by-gridSize with the remembered positions on it, which every reachable page state satisfies; at most one start and goal is promised only when it held before, because after a size change it does not (see Findings).
- React's state updates are modelled as direct field updates; the asynchronous batching of `setGrid`, `setStartPos` and `setGoalPos` is not.
- `selectedTile` is a string cast to a tile in the source; the model holds it as a tile.
- `LevelBuilder.LevelEditor.PlaceTile` requires (x, y) on the grid: the page only offers clicks on grid cells.
- Coordinates are unbounded integers; JavaScript numbers are doubles, which makes no difference for grid coordinates. The `${x},${y}` key is modelled for integers only.
- The levels other than the first are fixtures and not modelled.

## Findings

| source | as written | input that shows it | evidently intended | confidence | as-written member | corrected member |
|---|---|---|---|---|---|---|
| src/components/CodeEditor.tsx:38 | the caret is set to `selectionStart - 2` whatever the caret's column | text "A\n  B", caret 2: text becomes "A\nB" and the caret 0, on the line above (CodeEditor.ShiftTabCaretLeavesLine) | the caret moves left by two but not past the start of the line it de-indented | high, not executed | CodeEditor.ShiftTabKey | CodeEditor.ShiftTabCorrected |
| src/components/CodeEditor.tsx:34 | `lastIndexOf("\n", selectionStart - 1)` with the caret at 0 still inspects index 0 | text "\n  B", caret 0: the second line loses its indentation and the caret becomes -2 (CodeEditor.ShiftTabAtZeroHitsNextLine) | the caret's own line, which starts at 0, is examined and nothing changes | medium, not executed | CodeEditor.ShiftTabKey | CodeEditor.ShiftTabCorrected |
| src/components/CodeEditor.tsx:65-67 | on the first line the "previous line" is `value.slice(0, -1)`, the whole text but its last character | text "  A", caret 0: Backspace removes the two spaces (CodeEditor.BackspaceAtTopUsesWholeText) | the first line has no previous line, so there is no block level to fall back to and the handler stays out of the way | medium, not executed | CodeEditor.BackspaceKey | CodeEditor.BackspaceCorrected |
| src/app/create/page.tsx:152-165 | after a size change the start and goal tiles are rebuilt on the new grid but `startPos` and `goalPos` are set to null | the default 5-by-5 grid with a start at (0,0), size changed to 6 in the select, then a start placed at (1,1): the grid holds two starts, because the old start tile is no longer tracked; the same holds for every size change the start fits (LevelBuilder.ResizeThenPlaceDuplicatesStart) | the positions of the tiles that are kept are kept too, as the comment at line 156 announces for the tiles | high, not executed | LevelBuilder.Resized | LevelBuilder.ResizedCorrected |
| src/app/create/page.tsx:171-180 | placing a start on the goal cell keeps `goalPos`, and placing a goal on the start cell keeps `startPos` | on the default 5-by-5 grid, start at (0,0), place the goal at (0,0), then a start at (1,1): the goal tile is erased while `goalPos` still names (0,0); the same holds on every consistent board (LevelBuilder.PlacedLeavesStalePosition) | the overwritten position is cleared, as lines 183-184 do for the other tiles | high, not executed | LevelBuilder.Placed | LevelBuilder.PlacedCorrected |
