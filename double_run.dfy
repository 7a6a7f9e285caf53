/** End to end: the scene's program solves the double level. Stepping forward from the initial
    session runs Load, CopyTo 0, Add 0, Return, Jump 0 once per input and then finishes with
    exactly the expected output. */
module DoubleLevelRun {

  import opened Bytes
  import opened Game
  import opened Levels
  import opened Scene
  import opened SceneReducer
  import LoadInstruction

  // ---------------------------------------------------------------------------------------
  // The machine alone

  /** `m` steps of a machine given by its step function; a step that finishes or fails ends the
      run with its outcome. */
  function Run(step: GameState -> Outcome, game: GameState, m: nat): Outcome
    decreases m
  {
    if m == 0 then Next(game)
    else
      match step(game)
      case Next(g) => Run(step, g, m - 1)
      case Done => Done
      case Failure(e) => Failure(e)
  }

  /** Runs compose: a run that is still going after `a` steps continues from where it is. */
  lemma {:induction false} RunAdd(step: GameState -> Outcome, game: GameState, a: nat, b: nat, total: nat)
    requires total == a + b && Run(step, game, a).Next?
    ensures Run(step, game, total) == Run(step, Run(step, game, a).state, b)
    decreases a
  {
    if a > 0 {
      RunAdd(step, step(game).state, a - 1, b, total - 1);
    }
  }

  /** The machine of a level: one step of the program against the level's expected output. */
  function Machine(expected: seq<ByteValue>): GameState -> Outcome
  {
    g => StepOutcome(g, expected)
  }

  /** `m` steps of the machine. */
  function RunGame(game: GameState, expected: seq<ByteValue>, m: nat): Outcome
  {
    Run(Machine(expected), game, m)
  }

  /** A level whose expected output is, at position j, twice the input j places from the end. */
  predicate DoublingLevel(level: InitializedLevel<ByteValue>)
  {
    |level.output| == |level.input| && level.programMemorySize == 1
    && (forall j :: 0 <= j < |level.input| ==> level.input[j].Num?)
    && (forall j :: 0 <= j < |level.input| ==>
          level.output[j] == Num(2 * level.input[|level.input| - 1 - j].n))
  }

  /** The game at the top of the program loop after `k` inputs have been processed. */
  predicate LoopHead(g: GameState, level: InitializedLevel<ByteValue>, k: nat)
  {
    var n := |level.input|;
    k <= n && k <= |level.output|
    && g.carry == None && g.input == level.input[..n - k] && g.output == level.output[..k]
    && |g.memory| == 1 && g.stack == Program && g.stackPointer == 0
  }

  // One step of the program at each stack position.

  lemma LoadStep(g: GameState, expected: seq<ByteValue>)
    requires g.stack == Program && g.stackPointer == 0 && g.input != []
    ensures StepOutcome(g, expected) ==
            Next(g.(carry := Some(g.input[|g.input| - 1]), input := g.input[..|g.input| - 1], stackPointer := 1))
  {
    LoadInstruction.LoadPopsTail(g);
  }

  lemma CopyToStep(g: GameState, expected: seq<ByteValue>)
    requires g.stack == Program && g.stackPointer == 1 && |g.memory| == 1 && g.carry.Some?
    ensures StepOutcome(g, expected) == Next(g.(memory := [g.carry], stackPointer := 2))
  {
    var r := StepOutcome(g, expected);
    assert r.state.memory == [g.carry];
  }

  lemma AddStep(g: GameState, expected: seq<ByteValue>, x: int)
    requires g.stack == Program && g.stackPointer == 2
    requires g.memory == [Some(Num(x))] && g.carry == Some(Num(x))
    ensures StepOutcome(g, expected) == Next(g.(carry := Some(Num(x + x)), stackPointer := 3))
  {
  }

  lemma ReturnStep(g: GameState, expected: seq<ByteValue>)
    requires g.stack == Program && g.stackPointer == 3 && g.carry.Some?
    requires |g.output| < |expected| && expected[|g.output|] == g.carry.value
    ensures StepOutcome(g, expected) ==
            Next(g.(output := g.output + [g.carry.value], carry := None, stackPointer := 4))
  {
  }

  lemma JumpStep(g: GameState, expected: seq<ByteValue>)
    requires g.stack == Program && g.stackPointer == 4
    ensures StepOutcome(g, expected) == Next(g.(stackPointer := 0))
  {
  }

  /** One pass through the loop consumes one input and returns its double. */
  lemma LoopIteration(g: GameState, level: InitializedLevel<ByteValue>, k: nat)
    requires DoublingLevel(level) && LoopHead(g, level, k) && k < |level.input|
    ensures RunGame(g, level.output, 5).Next? && LoopHead(RunGame(g, level.output, 5).state, level, k + 1)
  {
    var e := level.output;
    var n := |level.input|;
    var v := level.input[n - k - 1];
    var x := v.n;
    assert e[k] == Num(x + x);
    assert g.input[|g.input| - 1] == v;
    assert g.input[..|g.input| - 1] == level.input[..n - (k + 1)];
    LoadStep(g, e);
    var g1 := StepOutcome(g, e).state;
    CopyToStep(g1, e);
    var g2 := StepOutcome(g1, e).state;
    AddStep(g2, e, x);
    var g3 := StepOutcome(g2, e).state;
    ReturnStep(g3, e);
    var g4 := StepOutcome(g3, e).state;
    assert e[..k] + [e[k]] == e[..k + 1];
    JumpStep(g4, e);
    var g5 := StepOutcome(g4, e).state;
    assert RunGame(g4, e, 1) == Next(g5);
    assert RunGame(g3, e, 2) == Next(g5);
    assert RunGame(g2, e, 3) == Next(g5);
    assert RunGame(g1, e, 4) == Next(g5);
  }

  /** From the top of the loop after `k` inputs, five steps per remaining input bring the
      machine back to the top of the loop with every input processed. */
  lemma {:induction false} LoopRunsAllInputs(g: GameState, level: InitializedLevel<ByteValue>, k: nat)
    requires DoublingLevel(level) && LoopHead(g, level, k)
    ensures var o := RunGame(g, level.output, 5 * (|level.input| - k));
            o.Next? && LoopHead(o.state, level, |level.input|)
    decreases |level.input| - k
  {
    var n := |level.input|;
    if k < n {
      LoopIteration(g, level, k);
      var g5 := RunGame(g, level.output, 5).state;
      LoopRunsAllInputs(g5, level, k + 1);
      RunAdd(Machine(level.output), g, 5, 5 * (n - (k + 1)), 5 * (n - k));
    }
  }

  /** With every input processed, the Load at the top of the loop finds the input empty: the
      run is finished, and the output is the whole expected output. */
  lemma FinalLoad(g: GameState, level: InitializedLevel<ByteValue>)
    requires LoopHead(g, level, |level.input|) && |level.output| == |level.input|
    ensures StepOutcome(g, level.output) == Done && g.output == level.output
  {
    assert g.input == [];
    assert level.output[..|level.input|] == level.output;
  }

  // ---------------------------------------------------------------------------------------
  // The scene following the machine

  /** `m` applications of `f`. */
  function Iterate<S>(f: S -> S, s: S, m: nat): S
    decreases m
  {
    if m == 0 then s else Iterate(f, f(s), m - 1)
  }

  lemma {:induction false} IterateAdd<S>(f: S -> S, s: S, a: nat, b: nat, total: nat)
    requires total == a + b
    ensures Iterate(f, s, total) == Iterate(f, Iterate(f, s, a), b)
    decreases a
  {
    if a > 0 {
      IterateAdd(f, f(s), a - 1, b, total - 1);
    }
  }

  lemma IterateOneMore<S>(f: S -> S, s: S, m: nat)
    ensures Iterate(f, s, m + 1) == f(Iterate(f, s, m))
  {
    IterateAdd(f, s, m, 1, m + 1);
  }

  /** One press of the step forward button. */
  function Press(s: SceneState): SceneState
  {
    Reducer(s, ControlStepForward)
  }

  /** Press step forward `m` times. */
  function StepForwardTimes(s: SceneState, m: nat): SceneState
  {
    Iterate(Press, s, m)
  }

  /** Paused at the end of the history. */
  predicate PausedAtEnd(s: SceneState)
  {
    Valid(s) && s.currentGameIndex == |s.gameStates| - 1 && s.control.state == Paused
  }

  /** The session with `g` appended to the history and made current. */
  function Appended(s: SceneState, g: GameState): SceneState
  {
    s.(currentGame := g, currentGameIndex := |s.gameStates|, gameStates := s.gameStates + [g])
  }

  /** From Paused at the end of history, a press whose step yields a new state appends it,
      makes it current and keeps everything else. */
  lemma PressAppends(s: SceneState)
    requires PausedAtEnd(s) && StepOutcome(s.currentGame, s.level.output).Next?
    ensures Press(s) == Appended(s, StepOutcome(s.currentGame, s.level.output).state)
  {
  }

  /** The states a run passes through after each of its first `m` steps, up to a step that
      finishes or fails. */
  function Trace(step: GameState -> Outcome, game: GameState, m: nat): seq<GameState>
    decreases m
  {
    if m == 0 then []
    else
      match step(game)
      case Next(g) => [g] + Trace(step, g, m - 1)
      case Done => []
      case Failure(_) => []
  }

  /** A run still going after `m` steps has a trace of `m` states, entry `k` being the state
      after `k + 1` steps. */
  lemma {:induction false} TraceFollowsRun(step: GameState -> Outcome, game: GameState, m: nat)
    requires Run(step, game, m).Next?
    ensures |Trace(step, game, m)| == m
    ensures forall k :: 0 <= k < m ==> Run(step, game, k + 1) == Next(Trace(step, game, m)[k])
    decreases m
  {
    if m > 0 {
      var g := step(game).state;
      TraceFollowsRun(step, g, m - 1);
      forall k | 0 <= k < m ensures Run(step, game, k + 1) == Next(Trace(step, game, m)[k]) {
        if k > 0 {
          assert Trace(step, game, m)[k] == Trace(step, g, m - 1)[k - 1];
        }
      }
    }
  }

  /** A run still going after `m > 0` steps has taken a first step, and its run and trace go on
      from there. */
  lemma RunFirstStep(step: GameState -> Outcome, game: GameState, m: nat)
    requires m > 0 && Run(step, game, m).Next?
    ensures step(game).Next?
    ensures Run(step, game, m) == Run(step, step(game).state, m - 1)
    ensures Trace(step, game, m) == [step(game).state] + Trace(step, step(game).state, m - 1)
  {
  }

  /** Appending to a session paused at the end of its history leaves it paused at the end. */
  lemma AppendedStaysPaused(s: SceneState, g: GameState)
    requires PausedAtEnd(s)
    ensures PausedAtEnd(Appended(s, g)) && Appended(s, g).level == s.level
    ensures Appended(s, g).gameStates == s.gameStates + [g] && Appended(s, g).currentGame == g
  {
  }

  /** PressAppends for every session of a level. */
  lemma PressAppendsWhilePaused(level: InitializedLevel<ByteValue>)
    ensures forall x {:trigger Press(x)} :: PausedAtEnd(x) && x.level == level && Machine(level.output)(x.currentGame).Next? ==>
              Press(x) == Appended(x, Machine(level.output)(x.currentGame).state)
  {
    forall x | PausedAtEnd(x) && x.level == level && Machine(level.output)(x.currentGame).Next?
      ensures Press(x) == Appended(x, Machine(level.output)(x.currentGame).state)
    {
      PressAppends(x);
    }
  }

  /** A history extended by a run's trace holds, from the old end on, the run's states in order. */
  lemma HistoryReadsTrace(step: GameState -> Outcome, game: GameState, before: seq<GameState>, h: seq<GameState>, m: nat)
    requires Run(step, game, m).Next? && h == before + Trace(step, game, m)
    ensures before <= h && |h| == |before| + m
    ensures forall i :: |before| <= i < |h| ==> Run(step, game, i - |before| + 1) == Next(h[i])
  {
    TraceFollowsRun(step, game, m);
    forall i | |before| <= i < |h| ensures Run(step, game, i - |before| + 1) == Next(h[i]) {
      assert h[i] == Trace(step, game, m)[i - |before|];
    }
  }

  /** `m` applications of any `f` that, paused at the end of history, appends the next state of
      the machine `step` extend the history by that machine's trace. */
  lemma {:induction false} AppendsFollowRun(f: SceneState -> SceneState, step: GameState -> Outcome, s: SceneState, m: nat)
    requires forall x {:trigger f(x)} :: PausedAtEnd(x) && x.level == s.level && step(x.currentGame).Next? ==>
               f(x) == Appended(x, step(x.currentGame).state)
    requires PausedAtEnd(s) && Run(step, s.currentGame, m).Next?
    ensures PausedAtEnd(Iterate(f, s, m))
    ensures Iterate(f, s, m).currentGame == Run(step, s.currentGame, m).state
    ensures Iterate(f, s, m).level == s.level
    ensures Iterate(f, s, m).gameStates == s.gameStates + Trace(step, s.currentGame, m)
    decreases m
  {
    if m > 0 {
      RunFirstStep(step, s.currentGame, m);
      var g := step(s.currentGame).state;
      var r := f(s);
      assert r == Appended(s, g);
      AppendedStaysPaused(s, g);
      AppendsFollowRun(f, step, r, m - 1);
      assert Iterate(f, s, m) == Iterate(f, r, m - 1);
      assert s.gameStates + [g] + Trace(step, g, m - 1) == s.gameStates + ([g] + Trace(step, g, m - 1));
    }
  }

  /** While the machine keeps going, each press of step forward appends the machine's next
      state to the history, makes it current and stays Paused. */
  lemma PressesFollowGame(s: SceneState, m: nat)
    requires PausedAtEnd(s) && RunGame(s.currentGame, s.level.output, m).Next?
    ensures PausedAtEnd(StepForwardTimes(s, m))
    ensures StepForwardTimes(s, m).currentGame == RunGame(s.currentGame, s.level.output, m).state
    ensures StepForwardTimes(s, m).level == s.level
    ensures var h := StepForwardTimes(s, m).gameStates;
            s.gameStates <= h && |h| == |s.gameStates| + m
            && forall i :: |s.gameStates| <= i < |h| ==> RunGame(s.currentGame, s.level.output, i - |s.gameStates| + 1) == Next(h[i])
  {
    var step := Machine(s.level.output);
    PressAppendsWhilePaused(s.level);
    AppendsFollowRun(Press, step, s, m);
    HistoryReadsTrace(step, s.currentGame, s.gameStates, StepForwardTimes(s, m).gameStates, m);
  }

  /** When the machine's next step finishes the run, step forward sets Finished and keeps the
      history; pressing again changes nothing. */
  lemma PressFinishes(s: SceneState)
    requires PausedAtEnd(s) && StepOutcome(s.currentGame, s.level.output) == Done
    ensures var r := Reducer(s, ControlStepForward);
            r == s.(control := s.control.(state := Finished))
            && Reducer(r, ControlStepForward) == r
  {
  }

  /** Five presses per input bring a paused scene from the top of the loop with nothing
      processed back to the top of the loop with every input processed. */
  lemma ReachesFinalLoad(s: SceneState)
    requires PausedAtEnd(s) && DoublingLevel(s.level) && LoopHead(s.currentGame, s.level, 0)
    ensures var last := StepForwardTimes(s, 5 * |s.level.input|);
            PausedAtEnd(last) && last.level == s.level
            && LoopHead(last.currentGame, s.level, |s.level.input|)
  {
    LoopRunsAllInputs(s.currentGame, s.level, 0);
    PressesFollowGame(s, 5 * |s.level.input|);
  }

  /** The press that runs the final Load finishes the run with the expected output. */
  lemma FinishesFromFinalLoad(last: SceneState)
    requires PausedAtEnd(last) && |last.level.output| == |last.level.input|
    requires LoopHead(last.currentGame, last.level, |last.level.input|)
    ensures var r := Press(last);
            r.control.state == Finished && r.currentGame.output == r.level.output && Press(r) == r
  {
    FinalLoad(last.currentGame, last.level);
    PressFinishes(last);
  }

  /** On any doubling level, from the top of the loop with nothing processed and the scene
      paused, five presses per input and one for the final Load finish the run with the
      expected output, and further presses change nothing. */
  lemma SolvesDoublingLevel(s: SceneState)
    requires PausedAtEnd(s) && DoublingLevel(s.level) && LoopHead(s.currentGame, s.level, 0)
    ensures var r := StepForwardTimes(s, 5 * |s.level.input| + 1);
            r.control.state == Finished && r.currentGame.output == r.level.output
            && Reducer(r, ControlStepForward) == r
  {
    var m := 5 * |s.level.input|;
    ReachesFinalLoad(s);
    var last := StepForwardTimes(s, m);
    FinishesFromFinalLoad(last);
    IterateOneMore(Press, s, m);
  }

  // ---------------------------------------------------------------------------------------
  // The double level

  /** The session the scene starts with for the double level drawn as `draws`. */
  function DoubleSession(draws: seq<int>): SceneState
    requires IsPositiveNumberDraw(5, draws)
  {
    InitialSceneState(AsByteLevel(InitializeLevel(Double(draws))))
  }

  /** Whatever five numbers are drawn, 27 presses of step forward (one to leave Pending, five per
      input, one for the final Load) end in Finished, never in an error, with the output equal
      to the level's expected output; further presses change nothing. */
  lemma DoubleLevelIsSolved(draws: seq<int>)
    requires IsPositiveNumberDraw(5, draws)
    ensures var r := StepForwardTimes(DoubleSession(draws), 27);
            r.control.state == Finished && r.currentGame.output == r.level.output
            && Reducer(r, ControlStepForward) == r
  {
    var s0 := DoubleSession(draws);
    var level := s0.level;
    DoubleOutput(draws);
    assert DoublingLevel(level);
    var s1 := Reducer(s0, ControlStepForward);
    assert s1 == s0.(control := s0.control.(state := Paused));
    assert level.input[..|level.input|] == level.input;
    SolvesDoublingLevel(s1);
    assert StepForwardTimes(s0, 1) == s1;
    IterateAdd(Press, s0, 1, 26, 27);
  }

  /** Once in an error, step forward keeps it: a replay leaves the control state alone and
      running the current instruction from an error changes nothing. */
  lemma {:induction false} PressesKeepError(s: SceneState, m: nat)
    requires s.control.state.Error?
    ensures StepForwardTimes(s, m).control.state == s.control.state
    decreases m
  {
    if m > 0 {
      assert Press(s).control.state == s.control.state;
      PressesKeepError(Press(s), m - 1);
      assert StepForwardTimes(s, m) == StepForwardTimes(Press(s), m - 1);
    }
  }

  /** No press on the way to the solution shows an error: an error after `j` presses would
      still be there after all 27. */
  lemma DoubleLevelNeverFails(draws: seq<int>)
    requires IsPositiveNumberDraw(5, draws)
    ensures forall j :: 0 <= j <= 27 ==> !StepForwardTimes(DoubleSession(draws), j).control.state.Error?
  {
    var s0 := DoubleSession(draws);
    DoubleLevelIsSolved(draws);
    forall j | 0 <= j <= 27 ensures !StepForwardTimes(s0, j).control.state.Error? {
      IterateAdd(Press, s0, j, 27 - j, 27);
      if StepForwardTimes(s0, j).control.state.Error? {
        PressesKeepError(StepForwardTimes(s0, j), 27 - j);
      }
    }
  }
}
