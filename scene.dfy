/** The session around the machine: control state, the history of snapshots with its cursor,
    and the engine step that runs the instruction under the stack pointer. */
module Scene {

  import opened Bytes
  import opened InstructionsCatalog
  import opened Game
  import opened Levels
  import LoadInstruction
  import ReturnInstruction
  import CopyToInstruction
  import CopyFromInstruction
  import IncrementInstruction
  import DecrementInstruction
  import AddInstruction
  import SubtractInstruction
  import JumpInstruction
  import JumpIfZeroInstruction
  import JumpIfNegativeInstruction

  /** The slider speeds 1 to 10 (GameSpeed). */
  type GameSpeed = s: int | 1 <= s <= 10 witness 1

  /** ControlState['state']: one of the four program states, or the error that ended the run. */
  datatype ProgramState = Pending | Paused | Running | Finished | Error(error: GameError)

  datatype ControlState = ControlState(speed: GameSpeed, state: ProgramState)

  /** The whole session (SceneState). */
  datatype SceneState = SceneState(
    control: ControlState,
    currentGame: GameState,
    currentGameIndex: nat,
    gameStates: seq<GameState>,
    level: InitializedLevel<ByteValue>)

  /** The cursor names an entry of the history and the current game is that entry; rendering
      throws when the indexed entry is missing. */
  predicate Valid(s: SceneState)
  {
    s.currentGameIndex < |s.gameStates| && s.currentGame == s.gameStates[s.currentGameIndex]
  }

  /** The rule an instruction action is dispatched to, applied to a game; Return also reads the
      level's expected output. */
  function ExecuteInstruction(game: GameState, instruction: Instruction, expected: seq<ByteValue>): Outcome
  {
    match instruction
    case Add(a) => AddInstruction.Reduce(game, a)
    case Subtract(a) => SubtractInstruction.Reduce(game, a)
    case CopyFrom(a) => CopyFromInstruction.Reduce(game, a)
    case CopyTo(a) => CopyToInstruction.Reduce(game, a)
    case Decrement(a) => DecrementInstruction.Reduce(game, a)
    case Increment(a) => IncrementInstruction.Reduce(game, a)
    case Jump(a) => JumpInstruction.Reduce(game, a)
    case JumpIfNegative(a) => JumpIfNegativeInstruction.Reduce(game, a)
    case JumpIfZero(a) => JumpIfZeroInstruction.Reduce(game, a)
    case Load => LoadInstruction.Reduce(game)
    case Return => ReturnInstruction.Reduce(game, expected)
  }

  /** Every rule keeps the program and the step counter, and only Load signals Finished. */
  lemma ExecuteKeepsProgram(game: GameState, instruction: Instruction, expected: seq<ByteValue>)
    ensures var o := ExecuteInstruction(game, instruction, expected);
            (o.Next? ==> o.state.stack == game.stack && o.state.stepCounter == game.stepCounter)
            && (o.Done? ==> instruction == Load && game.input == [])
  {
  }

  /** pushPreviousGameStates: a new state is appended to the history and becomes current;
      Finished or an error only changes the control state. */
  function PushPreviousGameStates(s: SceneState, o: Outcome): (r: SceneState)
    ensures r.level == s.level && r.control.speed == s.control.speed
    ensures o.Next? ==>
              |r.gameStates| == |s.gameStates| + 1
              && r.gameStates[..|s.gameStates|] == s.gameStates
              && r.gameStates[|s.gameStates|] == o.state
              && r.currentGameIndex == |s.gameStates|
              && r.currentGame == o.state
              && r.control == s.control
              && Valid(r)
    ensures !o.Next? ==>
              r.gameStates == s.gameStates && r.currentGameIndex == s.currentGameIndex
              && r.currentGame == s.currentGame
              && r.control.state == (if o.Done? then Finished else Error(o.error))
  {
    match o
    case Done => s.(control := s.control.(state := Finished))
    case Failure(e) => s.(control := s.control.(state := Error(e)))
    case Next(g) =>
      assert (s.gameStates + [g])[..|s.gameStates|] == s.gameStates;
      s.(currentGame := g, currentGameIndex := |s.gameStates|, gameStates := s.gameStates + [g])
  }

  /** The `reducer` cases for the instruction actions: run the rule on the current game and
      push its outcome. */
  function InstructionReducer(s: SceneState, instruction: Instruction): SceneState
  {
    PushPreviousGameStates(s, ExecuteInstruction(s.currentGame, instruction, s.level.output))
  }

  /** Reference single step of the machine: the outcome of running the instruction under the
      stack pointer, with running off the end of the program read as Finished when the input
      is used up and as "Unprocessed input." otherwise. */
  function StepOutcome(game: GameState, expected: seq<ByteValue>): Outcome
  {
    if game.stackPointer < |game.stack| then
      ExecuteInstruction(game, game.stack[game.stackPointer], expected)
    else if game.input == [] then Done
    else Failure(UnprocessedInput)
  }

  /** A step of the machine keeps the output a prefix of the expected output: Return appends
      only the expected value at the output's length, and no other rule touches the output. */
  lemma StepKeepsOutputPrefix(game: GameState, expected: seq<ByteValue>)
    requires game.output <= expected
    ensures StepOutcome(game, expected).Next? ==> StepOutcome(game, expected).state.output <= expected
  {
    if game.stackPointer < |game.stack| && game.stack[game.stackPointer] == Return {
      if ReturnInstruction.Reduce(game, expected).Next? {
        ReturnInstruction.ReturnKeepsPrefix(game, expected);
      }
    }
  }

  /** What a run never changes: the program, the stack pointer within it or just past its
      end, and the number of memory cells. */
  predicate InShape(g: GameState, memorySize: nat)
  {
    g.stack == Program && g.stackPointer <= |g.stack| && |g.memory| == memorySize
  }

  /** A step of the machine keeps the program and the memory's length, and leaves the stack
      pointer within the program or just past its end. */
  lemma StepKeepsShape(game: GameState, expected: seq<ByteValue>)
    requires game.stackPointer <= |game.stack|
    ensures var o := StepOutcome(game, expected);
            o.Next? ==>
              o.state.stack == game.stack && o.state.stackPointer <= |o.state.stack|
              && |o.state.memory| == |game.memory|
  {
  }

  /** runCurrentInstruction. */
  function RunCurrentInstruction(s: SceneState): (r: SceneState)
    ensures s.control.state.Error? ==> r == s
    ensures r.level == s.level && r.control.speed == s.control.speed
    ensures !s.control.state.Error? ==>
              match StepOutcome(s.currentGame, s.level.output)
              case Next(g) =>
                r.gameStates == s.gameStates + [g] && r.currentGameIndex == |s.gameStates|
                && r.currentGame == g
                && r.control.state == (if s.control.state == Pending then Running else s.control.state)
              case Done =>
                r == s.(control := s.control.(state := Finished))
              case Failure(e) =>
                r == s.(control := s.control.(state := Error(e)))
  {
    if s.control.state.Error? then s
    else if s.currentGame.stackPointer >= |s.currentGame.stack| then
      if |s.currentGame.input| == 0 then
        s.(control := s.control.(state := Finished))
      else
        s.(control := s.control.(state := Error(UnprocessedInput)))
    else
      var nextState := InstructionReducer(s, s.currentGame.stack[s.currentGame.stackPointer]);
      if nextState.control.state == Pending then
        nextState.(control := nextState.control.(state := Running))
      else
        nextState
  }

  /** An error stays until Reset: running from an error state changes nothing. */
  lemma ErrorStateIsInert(s: SceneState)
    requires s.control.state.Error?
    ensures RunCurrentInstruction(s) == s
  {
  }

  /** The program the scene is built with. */
  const Program: seq<Instruction> := [Load, CopyTo(0), Add(0), Return, Jump(0)]

  /** initialGameState for a level. */
  function InitialGameState(level: InitializedLevel<ByteValue>): (g: GameState)
    ensures g.carry == None && g.input == level.input && g.output == []
    ensures |g.memory| == level.programMemorySize && forall k :: 0 <= k < |g.memory| ==> g.memory[k] == None
    ensures g.stack == Program && g.stackPointer == 0 && g.stepCounter == 0
  {
    GameState(None, level.input, seq(level.programMemorySize, _ => None), [], Program, 0, 0)
  }

  /** initialSceneState for a level. */
  function InitialSceneState(level: InitializedLevel<ByteValue>): (s: SceneState)
    ensures s.gameStates == [InitialGameState(level)] && s.currentGameIndex == 0
    ensures s.currentGame == InitialGameState(level) && Valid(s)
    ensures s.control == ControlState(2, Pending) && s.level == level
  {
    var initial := InitialGameState(level);
    SceneState(ControlState(2, Pending), initial, 0, [initial], level)
  }
}
