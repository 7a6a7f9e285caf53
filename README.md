# hrm: a verified model of the accumulator machine

hrm is a small accumulator virtual machine written in TypeScript as a puzzle game: a program
moves values from an input, through one carried value and a row of memory cells, to an output
checked against what the level expects. The machine state is a `GameState`: the carried value, the remaining input, the memory,
the output produced so far, the program (a stack of instructions), the stack pointer and a step
counter. Eleven instructions change it. The scene around it keeps a history of every state
reached, one cursor into that history, and a control state: Pending, Paused, Running, Finished
or an error. Buttons step forward and backward through the history, reset it, play, pause and
set the speed. A level provides the input and the output it expects.

Every reducer in the source is pure, so the model uses datatypes and functions for them. The
level's number generators are `for` and `do … while` loops. They become methods with `while`
loops, proved against a specification of what they yield.

The files, in dependency order:

- `bytes.dfy`: `ByteValue` (a number or a character) and `Option`.
- `catalog.dfy`: the eleven opcodes, the instruction flags of a level, `isInstructionEnabled`,
  and the catalog listing.
- `game.dfy`: `GameState`, every error kind with its fields, and an instruction's `Outcome`
  (new state, Finished or an error).
- `load.dfy`, `return.dfy`, `copy_to.dfy`, `copy_from.dfy`, `increment.dfy`, `decrement.dfy`,
  `add.dfy`, `subtract.dfy`, `jump.dfy`, `jump_if_zero.dfy`, `jump_if_negative.dfy`: one module
  per instruction reducer. Each checks its errors in the source's order.
- `level.dfy`: the generators, `initializeLevel`, and the `passThrough3` and `double` levels.
- `scene.dfy`: the scene types, `pushPreviousGameStates`, `runCurrentInstruction`, and the
  initial game and scene.
- `step_forward.dfy`, `step_backward.dfy`, `reset.dfy`, `play.dfy`, `pause.dfy`,
  `speed_slider.dfy`: the control reducers and their buttons' `disabled` predicates.
- `reducer.dfy`: the scene `reducer`, the session invariant it keeps, and history and
  time-travel properties.
- `double_run.dfy`: end to end. For any five numbers drawn, the scene's built-in program
  `Load, CopyTo 0, Add 0, Return, Jump 0` solves the `double` level.

The source imports `Scene.tsx` and the control files from each other. The model breaks that
cycle. The types and `runCurrentInstruction` live in `Scene`, the controls import `Scene`, and
the `reducer` switch sits in its own module `SceneReducer`, above the controls. Return reads the
level's expected output from the whole scene state. The model passes it `level.output` next to
the current game.

Kept as the code has them:

- Subtract adds: `carry := memory[addr] + carry`.
- The Play and Pause reducers accept every state, including Finished and an error. Only their
  buttons are disabled in the wrong states.
- Stepping forward from Pending only switches to Paused and runs nothing.
- `stepCounter` is never changed.
- JumpIfZero jumps only on the number 0. JumpIfNegative jumps only on a number below 0. On any
  other carry, a character included, the fall-through adds one to the stack pointer without a
  bounds check.
- Returning past the end of the expected output gives the error built with an undefined
  expected value. The model's `expectedValue` is then `None`.

## Model

| member | source | states |
|---|---|---|
| InstructionsCatalog.AllInstructionTypesExact | components/Instructions/InstructionsCatalog.tsx:51-64 | the opcode union has exactly eleven distinct tags and every tag is among them |
| InstructionsCatalog.IsInstructionEnabled | components/Instructions/InstructionsCatalog.tsx:81-86 | with no instruction set every opcode is enabled; with a set, an opcode is enabled iff its key is present and its flag is true, so a missing key reads as false |
| InstructionsCatalog.EnabledIn | components/Instructions/InstructionsCatalog.tsx:94-104 | the listed opcodes are exactly those of the given order that are enabled; no set lists the whole order |
| InstructionsCatalog.TypeOf | components/Instructions/InstructionsCatalog.tsx:51-64 | the tag of each instruction of the union (no contract; InstructionsCatalog.Representative is its inverse) |
| InstructionsCatalog.Representative | components/Instructions/InstructionsCatalog.tsx:51-64 | every tag is the tag of some instruction |
| InstructionsCatalog.CatalogListing | components/Instructions/InstructionsCatalog.tsx:94-104 | the opcodes the catalog shows, filtered from its fixed order (no contract; the two lemmas below state its properties) |
| InstructionsCatalog.CatalogListsExactlyEnabled | components/Instructions/InstructionsCatalog.tsx:94-104 | the catalog shows an opcode iff it is enabled, for every opcode, and it has at most eleven entries |
| InstructionsCatalog.EnabledInKeepsOrder | components/Instructions/InstructionsCatalog.tsx:94-104 | filtering a list without repetitions keeps its order: listed entries occur in it at strictly increasing positions |
| InstructionsCatalog.EnabledInDistinct | components/Instructions/InstructionsCatalog.tsx:94-104 | filtering a list without repetitions lists no opcode twice |
| InstructionsCatalog.CatalogOrderDistinct | components/Instructions/InstructionsCatalog.tsx:94-104 | the catalog's fixed order names each opcode once |
| InstructionsCatalog.CatalogListingKeepsOrder | components/Instructions/InstructionsCatalog.tsx:94-104 | the catalog lists each opcode at most once, in its fixed order |
| LoadInstruction.Reduce | components/Instructions/LoadInstruction.tsx:9-31 | never an error; Finished iff the input is empty; otherwise the carry is the last input, the input loses exactly that element, the stack pointer advances by one, everything else is kept |
| LoadInstruction.LoadPopsTail | components/Instructions/LoadInstruction.tsx:16-26 | Load takes its value from the tail: carry is `input[|input|-1]`, the input shrinks by one to its prefix |
| ReturnInstruction.Reduce | components/Instructions/ReturnInstruction.tsx:9-36 | an empty carry fails first; a new state exists iff the carry equals the expected value at the output's length, otherwise the invalid-value error carries the carry and that expected value (none past the end); on success the carry is appended, cleared, the pointer advances, the rest is kept |
| ReturnInstruction.ReturnKeepsPrefix | components/Instructions/ReturnInstruction.tsx:19-33 | if the output is a prefix of the expected output before a successful Return, it is one element longer and still a prefix after |
| ReturnInstruction.ReturnPastEndFails | components/Instructions/ReturnInstruction.tsx:19-24 | once the output is as long as the expected output, every Return fails |
| CopyToInstruction.Reduce | components/Instructions/CopyToInstruction.tsx:13-37 | an address past the memory fails with address and length, checked before the carry; an empty carry fails next; on success exactly that cell holds the carry, all other cells and the length are kept, the pointer advances and nothing else changes |
| CopyFromInstruction.Reduce | components/Instructions/CopyFromInstruction.tsx:13-33 | out of bound, then an empty cell, fail; on success the carry is the cell's value whatever its type, the pointer advances, memory and everything else are kept |
| CopyFromInstruction.CopyFromAfterCopyTo | components/Instructions/CopyFromInstruction.tsx:13-33 | CopyTo then CopyFrom of the same cell gives back the carried value, with memory as CopyTo left it and the pointer two further |
| IncrementInstruction.Reduce | components/Instructions/IncrementInstruction.tsx:13-46 | out of bound, null cell, character cell fail in that order; on success the cell is its old number plus one, no other cell changes, the carry is the new value, the pointer advances |
| DecrementInstruction.Reduce | components/Instructions/DecrementInstruction.tsx:13-47 | the same error order; on success the cell is its old number minus one, no other cell changes, the carry is the new value, the pointer advances |
| DecrementInstruction.IncrementThenDecrementRestoresMemory | components/Instructions/DecrementInstruction.tsx:36-37 | incrementing then decrementing a numeric cell restores the whole memory |
| AddInstruction.Reduce | components/Instructions/AddInstruction.tsx:13-50 | the five errors in the source's order, an out-of-bound address failing whatever the carry; a new state exists iff address, carry and cell are all valid numbers, and then the carry is cell plus carry, the pointer advances, nothing else changes |
| SubtractInstruction.Reduce | components/Instructions/SubtractInstruction.tsx:13-50 | the same five errors in the same order; on success the carry is cell plus carry (an addition), the pointer advances, nothing else changes |
| SubtractInstruction.SubtractBehavesAsAdd | components/Instructions/SubtractInstruction.tsx:40-47 | for every state and address Subtract succeeds iff Add does, with the same new state |
| JumpInstruction.Reduce | components/Instructions/JumpInstruction.tsx:13-30 | fails with address and stack length iff the address is past the stack; otherwise only the stack pointer changes, to the address, which is then inside the stack |
| JumpIfZeroInstruction.Reduce | components/Instructions/JumpIfZeroInstruction.tsx:13-45 | an empty carry fails before any lookup; a new state exists iff the carry is not the number 0 or the address is inside the stack; the pointer is the address when the carry is 0 and one further otherwise, nothing else changes |
| JumpIfZeroInstruction.TakenBranchIsJump | components/Instructions/JumpIfZeroInstruction.tsx:26-35 | on a zero carry the instruction behaves exactly as Jump |
| JumpIfNegativeInstruction.Reduce | components/Instructions/JumpIfNegativeInstruction.tsx:13-45 | an empty carry fails first; a new state exists iff the carry is not a negative number or the address is inside the stack; the pointer is the address on a negative number and one further otherwise, nothing else changes |
| JumpIfNegativeInstruction.TakenBranchIsJump | components/Instructions/JumpIfNegativeInstruction.tsx:26-35 | on a negative carry the instruction behaves exactly as Jump |
| Levels.PositiveNumberGenerator | components/Level.tsx:5-8 | with `take > 0` the loop yields exactly `take` values, the rounded draws in order |
| Levels.PositiveNumberSequenceGenerator | components/Level.tsx:10-14 | with `take > 0` and `start >= 0` the loop yields exactly `start, start+1, …, start+take-1` |
| Levels.Wrap | components/Level.tsx:26 | a bare mapping result becomes a one-element list and a list is kept as it is |
| Levels.OutputGenerator | components/Level.tsx:20-28 | the coroutine first yields the empty list, then for each value sent the map result, a single value wrapped in a one-element list |
| Levels.ReduceConcat | components/Level.tsx:101-105 | the left fold with `concat` equals the start value followed by every per-input output in input order |
| Levels.Reverse | components/Level.tsx:106 | the reversed list has the same length and element `k` is element `n-1-k` |
| Levels.InitializeLevel | components/Level.tsx:97-110 | the input is the generated sequence in order; the output is the concatenation of the per-input outputs, reversed; instructions and memory size are copied |
| Levels.FlattenSingletons | components/Level.tsx:101-105 | when every input maps to one value, the concatenation has one entry per input, in input order |
| Levels.Enabling | components/Level.tsx:44-56 | a level's flag table has every opcode as a key, true exactly for the listed ones |
| Levels.PassThrough3 | components/Level.tsx:40-58 | three draws, no memory, exactly Load and Return enabled |
| Levels.Double | components/Level.tsx:60-78 | five draws, one memory cell, exactly CopyTo, Jump, Load and Return enabled |
| Levels.PassThrough3Output | components/Level.tsx:40-43 | passThrough3 expects its input reversed |
| Levels.DoubleOutput | components/Level.tsx:60-63 | double expects as many outputs as inputs, output `k` being twice input `n-1-k` |
| Levels.AsByteLevel | components/Byte.tsx:64-65 | a level over numbers seen as one over byte values: each input is the same number |
| Scene.ExecuteKeepsProgram | components/Scene.tsx:198-219 | no instruction changes the program or the step counter, and only Load on an empty input finishes |
| Scene.ExecuteInstruction | components/Scene.tsx:198-219 | the instruction rule each instruction action is dispatched to (no contract; Scene.ExecuteKeepsProgram and Scene.StepKeepsOutputPrefix state its properties) |
| Scene.StepKeepsOutputPrefix | components/Instructions/ReturnInstruction.tsx:19-33 | one step of the machine keeps the output a prefix of the expected output |
| Scene.StepKeepsShape | components/Scene.tsx:198-219 | a step that goes on keeps the program and the number of memory cells, and leaves the stack pointer within the program or just past its end |
| Scene.InstructionReducer | components/Scene.tsx:198-219 | an instruction action runs its rule on the current game and pushes the outcome (no contract; Scene.PushPreviousGameStates states what the push does) |
| Scene.PushPreviousGameStates | components/Scene.tsx:108-128 | a new state is appended as the one last entry, earlier entries kept, cursor at the old length, current game the new state, control untouched; Finished or an error changes only the control state and keeps history, cursor and current game |
| Scene.RunCurrentInstruction | components/Scene.tsx:130-173 | an error state is returned unchanged; off the end of the program the result is Finished on empty input and the unprocessed-input error otherwise, history untouched; otherwise the instruction's outcome goes through pushPreviousGameStates, Pending becoming Running and other states kept |
| Scene.ErrorStateIsInert | components/Scene.tsx:131-133 | from an error state running the current instruction changes nothing |
| Scene.InitialGameState | components/Scene.tsx:233-266 | empty carry, the level's input, `programMemorySize` empty cells, empty output, the five-instruction program, pointer and counter 0 |
| Scene.InitialSceneState | components/Scene.tsx:268-277 | history holding only the initial game, cursor 0 on it, speed 2, Pending, the level kept |
| StepForwardControl.Reduce | components/Controls/StepForwardControl.tsx:10-34 | with a later snapshot the cursor moves to it without running anything, history and control kept; at the end of history Pending becomes Paused and nothing runs; otherwise it is runCurrentInstruction |
| StepForwardControl.Disabled | components/Controls/StepForwardControl.tsx:79-82 | the button's `disabled` condition (no contract; the next row characterises it) |
| StepForwardControl.DisabledIffTerminalAtEnd | components/Controls/StepForwardControl.tsx:79-82 | the button is disabled iff the cursor is on the last snapshot and the state is Finished or an error |
| StepBackwardControl.Reduce | components/Controls/StepBackwardControl.tsx:10-26 | at cursor 0 nothing changes; otherwise the cursor moves back one onto that snapshot; history and control are never changed and validity is kept |
| StepBackwardControl.Disabled | components/Controls/StepBackwardControl.tsx:69 | the button's `disabled` condition, cursor at 0 (no contract; the next row characterises it) |
| StepBackwardControl.DisabledIffFixed | components/Controls/StepBackwardControl.tsx:69 | the button is disabled exactly when pressing it would change nothing |
| ResetControl.Reduce | components/Controls/ResetControl.tsx:9-28 | on a non-empty history: the history is its first entry alone, cursor 0 on it, Pending, speed and level kept |
| ResetControl.ResetIdempotent | components/Controls/ResetControl.tsx:12-25 | resetting twice is resetting once |
| PlayControl.Reduce | components/Controls/PlayControl.tsx:9-17 | the state becomes Running whatever it was, the speed is kept |
| PlayControl.PlayIdempotent | components/Controls/PlayControl.tsx:11-15 | playing twice is playing once |
| PlayControl.Disabled | components/Controls/PlayControl.tsx:60-61 | the button's `disabled` condition (no contract; the next row characterises it) |
| PlayControl.EnabledIffPendingOrPaused | components/Controls/PlayControl.tsx:60-61 | the button is enabled iff the state is Pending or Paused, and then pressing it changes the state |
| PauseControl.Reduce | components/Controls/PauseControl.tsx:8-16 | the state becomes Paused whatever it was, the speed is kept |
| PauseControl.PauseIdempotent | components/Controls/PauseControl.tsx:10-14 | pausing twice is pausing once |
| PauseControl.Disabled | components/Controls/PauseControl.tsx:57 | the button's `disabled` condition (no contract; the next row characterises it) |
| PauseControl.EnabledIffRunning | components/Controls/PauseControl.tsx:57 | the button is enabled iff the state is Running, and then pressing it changes the state |
| SpeedSliderControl.Reduce | components/Controls/SpeedSliderControl.tsx:55-63 | the speed becomes the given one, always within 1..10, and the state is kept |
| SpeedSliderControl.LastWriteWins | components/Controls/SpeedSliderControl.tsx:58-61 | two speed changes equal the second alone |
| SceneReducer.Reducer | components/Scene.tsx:175-229 | every action keeps the level, and a valid session (cursor on an existing snapshot that is the current game) stays valid |
| SceneReducer.InitialSessionInvariant | components/Scene.tsx:268-277 | the initial session satisfies the session invariant: valid cursor, first snapshot the initial game, every snapshot's output a prefix of the expected output and its program, stack pointer range and memory length those of the run, Pending only with a one-entry history, Finished only where the next step finishes again |
| SceneReducer.AppendedStepKeepsInvariant | components/Scene.tsx:122-128 | appending the machine's next state to a history ending in the current game, with the cursor on it and a state neither Pending nor Finished, keeps the session invariant |
| SceneReducer.StepForwardKeepsInvariant | components/Controls/StepForwardControl.tsx:10-34 | stepping forward keeps the session invariant |
| SceneReducer.ResetKeepsInvariant | components/Controls/ResetControl.tsx:12-25 | Reset keeps the session invariant |
| SceneReducer.ControlChangeKeepsInvariant | components/Scene.tsx:177-197 | replacing only the control state keeps the session invariant unless it newly claims Pending or Finished |
| SceneReducer.UserActionKeepsInvariant | components/Scene.tsx:175-229 | every button or slider action and SET_GAME_ERROR keeps the session invariant |
| SceneReducer.RawInstructionActionBreaksPending | components/Scene.tsx:198-219 | an instruction action dispatched straight to the reducer from the initial session adds history while staying Pending, so the invariant is stated for user actions only |
| SceneReducer.ReachableSessionsKeepInvariant | components/Scene.tsx:175-229 | any sequence of user actions keeps the session invariant, so the current output is always a prefix of the expected output, the current game keeps the program, a stack pointer within it or just past its end and the level's number of memory cells, and a Pending session has one snapshot and cursor 0 |
| SceneReducer.HistoryOnlyGrows | components/Scene.tsx:108-128 | every action but Reset keeps the old history as a prefix and adds at most one snapshot |
| SceneReducer.StepForwardFixedIffDisabled | components/Controls/StepForwardControl.tsx:79-82 | in a reachable session stepping forward changes nothing iff its button is disabled |
| SceneReducer.ErrorIsStickyUntilReset | components/Scene.tsx:131-133 | from an error, every action the enabled buttons allow except Reset keeps that error |
| SceneReducer.BackThenForwardIsIdentity | components/Controls/StepBackwardControl.tsx:19-23 | from a cursor above 0, stepping back then forward gives back exactly the same session |
| SceneReducer.ResetRestoresInitialSession | components/Controls/ResetControl.tsx:12-25 | in a reachable session Reset gives the level's initial session with the current speed |
| DoubleLevelRun.LoadStep | components/Scene.tsx:247 | the program's first instruction pops the last input into the carry |
| DoubleLevelRun.CopyToStep | components/Scene.tsx:248 | the second stores the carry in cell 0 |
| DoubleLevelRun.AddStep | components/Scene.tsx:249 | the third doubles the carry by adding cell 0 |
| DoubleLevelRun.ReturnStep | components/Scene.tsx:251 | the fourth appends the carry when it is the expected value |
| DoubleLevelRun.JumpStep | components/Scene.tsx:257-262 | the fifth jumps back to the first |
| DoubleLevelRun.LoopIteration | components/Scene.tsx:247-262 | on a doubling level one pass of five steps consumes one input and returns its double as the next expected output |
| DoubleLevelRun.LoopRunsAllInputs | components/Scene.tsx:247-262 | five steps per remaining input bring the machine back to the top of the loop with every input processed and never fail |
| DoubleLevelRun.FinalLoad | components/Instructions/LoadInstruction.tsx:16-21 | with every input processed the next Load finishes the run, and the output is the whole expected output |
| DoubleLevelRun.PressAppends | components/Scene.tsx:161-172 | from Paused at the end of history, a press whose step yields a new state appends exactly that state, makes it current and changes nothing else |
| DoubleLevelRun.TraceFollowsRun | components/Scene.tsx:130-172 | a run still going after `m` steps passes through `m` states, entry `k` being the state after `k + 1` steps |
| DoubleLevelRun.AppendsFollowRun | components/Controls/StepForwardControl.tsx:24 | repeating any step that, paused at the end of history, appends the machine's next state extends the history by exactly the machine's trace and stays paused at the end |
| DoubleLevelRun.PressesFollowGame | components/Controls/StepForwardControl.tsx:24 | while the machine keeps going, `m` presses from Paused at the end of history keep the old history as a prefix, add exactly `m` snapshots, the one at old length plus `k` being the machine's state after `k + 1` steps, and stay Paused at the end with the last as current game |
| DoubleLevelRun.PressFinishes | components/Scene.tsx:136-148 | when the next step finishes, a press sets Finished and keeps the history, and a further press changes nothing |
| DoubleLevelRun.ReachesFinalLoad | components/Scene.tsx:231-266 | on a doubling level, five presses per input reach the final Load, paused at the end of history |
| DoubleLevelRun.FinishesFromFinalLoad | components/Scene.tsx:231-266 | the press on the final Load finishes with the expected output, and stepping further changes nothing |
| DoubleLevelRun.SolvesDoublingLevel | components/Scene.tsx:231-266 | on any doubling level, five presses per input and one more end in Finished with the expected output, and further presses change nothing |
| DoubleLevelRun.DoubleLevelIsSolved | components/Scene.tsx:231-277 | for any five numbers drawn, 27 step-forward presses from the initial scene of the double level end in Finished with output equal to the level's expected output, and further presses change nothing |
| DoubleLevelRun.PressesKeepError | components/Scene.tsx:131-133 | from an error state, any number of step-forward presses keep that error |
| DoubleLevelRun.DoubleLevelNeverFails | components/Scene.tsx:231-277 | for any five numbers drawn, none of the first 27 presses from the initial scene of the double level ends in an error |

## Left out

- Rendering: every JSX component, all CSS, the React hooks, `instructionActionToComponent` and
  the Program* panels are presentation. Only `ByteValue` is taken from components/Byte.tsx.
- The auto-play scheduler (components/Scene.tsx:316-326) is a timer with a `1000 / speed` delay.
  The model has no clock. Running only means that a step may be requested.
- `Math.random` and `Math.round` in `positiveNumberGenerator` are replaced by a parameter: the
  sequence of already rounded draws, each within 0..100.
- JavaScript numbers are unbounded integers here, with no floats and no NaN. Addresses are
  `nat`, so the negative and fractional addresses that `addr > length - 1` lets through are not
  modelled.
- Generators are not lazy here. The level's input generator is the finite sequence it yields.
  `outputGenerator` is run for the sequence of values sent to it, and the map result's type test
  (`isIterable`) becomes the sum type `MapResult`.
- Error messages and the `instanceof` and `setPrototypeOf` machinery are left out, including the
  wrong prototype set in components/Instructions/ReturnInstruction.tsx:48. Errors are tagged
  variants carrying their numeric fields.
- `JumpCarryNullError` (components/Instructions/JumpInstruction.tsx:32-37) is never raised, so it
  has no variant.
- lib/util.ts and lib/GameError.ts are not part of this model. `invariant` becomes a
  precondition, and `assertNever` becomes the exhaustive match.
- `Array.prototype.concat` spreads only arrays. A non-array iterable returned by a level's
  mapping function would be appended as one element, but the model treats every mapping
  result as a list of values. Every level in the source returns an array.
- Bytes.ByteValue: the text case holds one character. The source types it as a string, but
  every text value it builds is a single letter.
- The module-level `let level` (components/Scene.tsx:231) is a parameter of the initial states.
- SceneReducer.ReachableSessionsKeepInvariant: the invariant covers the buttons, the slider and
  SET_GAME_ERROR, not instruction actions dispatched straight to the reducer. Those bypass
  runCurrentInstruction and can add history while Pending, as
  SceneReducer.RawInstructionActionBreaksPending shows.
- DoubleLevelRun.DoubleLevelIsSolved: stepping is modelled only through the step-forward button.
  A run driven by Play and the scheduler is not covered.
