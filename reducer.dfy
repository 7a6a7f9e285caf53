/** The session reducer: every action the scene can receive, and the invariants the
    actions the user can dispatch keep. */
module SceneReducer {

  import opened Bytes
  import opened InstructionsCatalog
  import opened Game
  import opened Scene
  import StepForwardControl
  import StepBackwardControl
  import ResetControl
  import PlayControl
  import PauseControl
  import SpeedSliderControl

  /** GameStateAction: the control actions, the instruction actions and SET_GAME_ERROR. */
  datatype Action =
    | ControlPlay
    | ControlReset
    | ControlSpeedSlider(speed: GameSpeed)
    | ControlStepBackward
    | ControlStepForward
    | ControlPause
    | InstructionAction(instruction: Instruction)
    | SetGameError(error: GameError)

  /** reducer. Reset needs a first history entry, as its reducer asserts. */
  function Reducer(s: SceneState, a: Action): (r: SceneState)
    requires a.ControlReset? ==> |s.gameStates| > 0
    ensures r.level == s.level
    ensures Valid(s) ==> Valid(r)
  {
    match a
    case ControlPlay => s.(control := PlayControl.Reduce(s.control))
    case ControlReset => ResetControl.Reduce(s)
    case ControlSpeedSlider(speed) => s.(control := SpeedSliderControl.Reduce(s.control, speed))
    case ControlStepBackward => StepBackwardControl.Reduce(s)
    case ControlStepForward => StepForwardControl.Reduce(s)
    case ControlPause => s.(control := PauseControl.Reduce(s.control))
    case InstructionAction(i) => InstructionReducer(s, i)
    case SetGameError(e) => s.(control := s.control.(state := Error(e)))
  }

  /** Instruction actions are never dispatched by the user: they reach the reducer only
      through runCurrentInstruction. */
  predicate UserAction(a: Action)
  {
    !a.InstructionAction?
  }

  /** The last snapshot of a non-empty history. */
  function Last(s: SceneState): GameState
    requires |s.gameStates| > 0
  {
    s.gameStates[|s.gameStates| - 1]
  }

  /** Every snapshot's output is a prefix of the level's expected output. */
  predicate OutputsArePrefixes(s: SceneState)
  {
    forall k :: 0 <= k < |s.gameStates| ==> s.gameStates[k].output <= s.level.output
  }

  /** Every snapshot runs the scene's program, with the stack pointer within it or just past
      its end, over the level's number of memory cells. */
  predicate SnapshotsInShape(s: SceneState)
  {
    forall k :: 0 <= k < |s.gameStates| ==> InShape(s.gameStates[k], s.level.programMemorySize)
  }

  /** Appending a snapshot whose output is a prefix and whose shape is the run's keeps both
      facts for the whole history. */
  lemma AppendKeepsSnapshotFacts(s: SceneState, r: SceneState, g: GameState)
    requires OutputsArePrefixes(s) && SnapshotsInShape(s) && r.level == s.level
    requires r.gameStates == s.gameStates + [g] && g.output <= s.level.output
    requires InShape(g, s.level.programMemorySize)
    ensures OutputsArePrefixes(r) && SnapshotsInShape(r)
  {
    forall k | 0 <= k < |r.gameStates|
      ensures r.gameStates[k].output <= r.level.output
      ensures InShape(r.gameStates[k], r.level.programMemorySize)
    {
      if k < |s.gameStates| {
        assert r.gameStates[k] == s.gameStates[k];
      }
    }
  }

  /** What holds of every session the user can reach: the cursor is valid, the first snapshot
      is the level's initial state, every output so far is a prefix of the expected one,
      every snapshot keeps the program and the memory's length, Pending means nothing has run yet, and Finished means the last snapshot's next step
      signals Finished again. */
  predicate SessionInvariant(s: SceneState)
  {
    Valid(s)
    && s.gameStates[0] == InitialGameState(s.level)
    && OutputsArePrefixes(s)
    && SnapshotsInShape(s)
    && (s.control.state == Pending ==> |s.gameStates| == 1)
    && (s.control.state == Finished ==> StepOutcome(Last(s), s.level.output) == Done)
  }

  lemma InitialSessionInvariant(level: Levels.InitializedLevel<ByteValue>)
    ensures SessionInvariant(InitialSceneState(level))
  {
  }

  /** A snapshot appended by running the instruction under the stack pointer keeps the
      invariant. */
  lemma AppendedStepKeepsInvariant(s: SceneState, r: SceneState, g: GameState)
    requires SessionInvariant(s) && s.currentGame == Last(s)
    requires StepOutcome(s.currentGame, s.level.output) == Next(g)
    requires r.level == s.level && r.gameStates == s.gameStates + [g]
    requires r.currentGameIndex == |s.gameStates| && r.currentGame == g
    requires r.control.state != Pending && r.control.state != Finished
    ensures SessionInvariant(r)
  {
    StepKeepsOutputPrefix(s.currentGame, s.level.output);
    StepKeepsShape(s.currentGame, s.level.output);
    assert r.gameStates[0] == s.gameStates[0];
    AppendKeepsSnapshotFacts(s, r, g);
  }

  /** Stepping forward keeps the invariant. */
  lemma StepForwardKeepsInvariant(s: SceneState)
    requires SessionInvariant(s)
    ensures SessionInvariant(Reducer(s, ControlStepForward))
  {
    var r := Reducer(s, ControlStepForward);
    if s.currentGameIndex + 1 >= |s.gameStates| && s.control.state != Pending && !s.control.state.Error? {
      assert s.currentGame == Last(s);
      match StepOutcome(s.currentGame, s.level.output)
      case Next(g) =>
        assert s.control.state != Finished;
        AppendedStepKeepsInvariant(s, r, g);
      case Done =>
      case Failure(e) =>
    }
  }

  /** A change of the control state alone keeps the invariant unless it claims Pending with a
      longer history or a Finished the last snapshot does not reach. */
  lemma ControlChangeKeepsInvariant(s: SceneState, c: ControlState)
    requires SessionInvariant(s)
    requires c.state == Pending ==> s.control.state == Pending
    requires c.state == Finished ==> s.control.state == Finished
    ensures SessionInvariant(s.(control := c))
  {
  }

  /** Reset keeps the first snapshot alone. */
  lemma ResetKeepsInvariant(s: SceneState)
    requires SessionInvariant(s)
    ensures SessionInvariant(Reducer(s, ControlReset))
  {
    var r := Reducer(s, ControlReset);
    assert r.gameStates == [s.gameStates[0]];
  }

  /** Every action the user can dispatch keeps the invariant. */
  lemma UserActionKeepsInvariant(s: SceneState, a: Action)
    requires SessionInvariant(s) && UserAction(a)
    ensures SessionInvariant(Reducer(s, a))
  {
    match a
    case ControlStepForward => StepForwardKeepsInvariant(s);
    case ControlReset => ResetKeepsInvariant(s);
    case ControlStepBackward =>
    case ControlPlay => ControlChangeKeepsInvariant(s, PlayControl.Reduce(s.control));
    case ControlPause => ControlChangeKeepsInvariant(s, PauseControl.Reduce(s.control));
    case ControlSpeedSlider(speed) => ControlChangeKeepsInvariant(s, SpeedSliderControl.Reduce(s.control, speed));
    case SetGameError(e) => ControlChangeKeepsInvariant(s, s.control.(state := Error(e)));
  }

  /** A raw instruction action sent straight to the reducer from the initial session does not
      keep it: the state stays Pending with two snapshots. */
  lemma RawInstructionActionBreaksPending(level: Levels.InitializedLevel<ByteValue>)
    requires level.input != []
    ensures var r := Reducer(InitialSceneState(level), InstructionAction(Load));
            r.control.state == Pending && |r.gameStates| == 2 && !SessionInvariant(r)
  {
  }

  /** Apply a sequence of actions in order. */
  function Apply(s: SceneState, actions: seq<Action>): SceneState
    requires Valid(s)
    decreases |actions|
  {
    if actions == [] then s else Apply(Reducer(s, actions[0]), actions[1..])
  }

  /** From the initial session, any sequence of user actions reaches a session satisfying the
      invariant; in particular the cursor is in range and Pending means a one-entry history. */
  lemma {:induction false} ReachableSessionsKeepInvariant(s: SceneState, actions: seq<Action>)
    requires SessionInvariant(s)
    requires forall k :: 0 <= k < |actions| ==> UserAction(actions[k])
    ensures SessionInvariant(Apply(s, actions))
    ensures var r := Apply(s, actions);
            r.currentGameIndex < |r.gameStates|
            && r.currentGame.output <= s.level.output
            && InShape(r.currentGame, s.level.programMemorySize)
            && (r.control.state == Pending ==> r.gameStates == [InitialGameState(s.level)] && r.currentGameIndex == 0)
    decreases |actions|
  {
    if actions != [] {
      UserActionKeepsInvariant(s, actions[0]);
      ReachableSessionsKeepInvariant(Reducer(s, actions[0]), actions[1..]);
    }
  }

  /** History is append-only: every action but Reset keeps the old history as a prefix and adds
      at most one snapshot. */
  lemma HistoryOnlyGrows(s: SceneState, a: Action)
    requires !a.ControlReset?
    ensures s.gameStates <= Reducer(s, a).gameStates
    ensures |Reducer(s, a).gameStates| <= |s.gameStates| + 1
  {
    var r := Reducer(s, a);
    if a.ControlStepForward? || a.InstructionAction? {
      if |r.gameStates| != |s.gameStates| {
        assert r.gameStates[..|s.gameStates|] == s.gameStates;
      }
    }
  }

  /** Stepping forward leaves the session unchanged exactly when its button is disabled:
      at the end of history in the Finished or an error state. */
  lemma StepForwardFixedIffDisabled(s: SceneState)
    requires SessionInvariant(s)
    ensures Reducer(s, ControlStepForward) == s <==> StepForwardControl.Disabled(s)
  {
    var r := Reducer(s, ControlStepForward);
    if s.currentGameIndex + 1 >= |s.gameStates| {
      assert s.currentGame == Last(s);
      if !s.control.state.Error? && s.control.state != Pending {
        match StepOutcome(s.currentGame, s.level.output)
        case Next(g) => assert |r.gameStates| != |s.gameStates|;
        case Done =>
        case Failure(e) =>
      }
    } else {
      assert r.currentGameIndex != s.currentGameIndex;
    }
  }

  /** Whether the scene's buttons let the user dispatch `a` (Reset and the slider always). */
  predicate Enabled(s: SceneState, a: Action)
  {
    match a
    case ControlPlay => !PlayControl.Disabled(s.control.state)
    case ControlPause => !PauseControl.Disabled(s.control.state)
    case ControlStepForward => !StepForwardControl.Disabled(s)
    case ControlStepBackward => !StepBackwardControl.Disabled(s)
    case ControlReset => true
    case ControlSpeedSlider(_) => true
    case InstructionAction(_) => false
    case SetGameError(_) => false
  }

  /** Through the enabled buttons, an error is left only by Reset. */
  lemma ErrorIsStickyUntilReset(s: SceneState, a: Action)
    requires s.control.state.Error?
    requires Enabled(s, a) && !a.ControlReset?
    ensures Reducer(s, a).control.state == s.control.state
  {
  }

  /** Replay: stepping backward then forward restores the session. */
  lemma BackThenForwardIsIdentity(s: SceneState)
    requires Valid(s) && s.currentGameIndex > 0
    ensures Reducer(Reducer(s, ControlStepBackward), ControlStepForward) == s
  {
  }

  /** Reset brings any reachable session back to the level's initial session, keeping the speed. */
  lemma ResetRestoresInitialSession(s: SceneState)
    requires SessionInvariant(s)
    ensures Reducer(s, ControlReset) == InitialSceneState(s.level).(control := ControlState(s.control.speed, Pending))
  {
  }
}
