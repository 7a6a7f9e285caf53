/** Step forward: replay the next snapshot of the history if there is one, otherwise run the
    next instruction (from Pending it only pauses). */
module StepForwardControl {

  import opened Scene

  /** stepForwardControlReducer. */
  function Reduce(s: SceneState): (r: SceneState)
    ensures r.level == s.level && r.control.speed == s.control.speed
    ensures s.currentGameIndex + 1 < |s.gameStates| ==>
              r.gameStates == s.gameStates && r.control == s.control
              && r.currentGameIndex == s.currentGameIndex + 1
              && r.currentGame == s.gameStates[s.currentGameIndex + 1]
    ensures s.currentGameIndex + 1 >= |s.gameStates| && s.control.state == Pending ==>
              r == s.(control := s.control.(state := Paused))
    ensures s.currentGameIndex + 1 >= |s.gameStates| && s.control.state != Pending ==>
              r == RunCurrentInstruction(s)
  {
    var nextGameStateIndex := s.currentGameIndex + 1;
    if nextGameStateIndex >= |s.gameStates| then
      if s.control.state == Pending then
        s.(control := s.control.(state := Paused))
      else
        RunCurrentInstruction(s)
    else
      s.(currentGameIndex := nextGameStateIndex, currentGame := s.gameStates[nextGameStateIndex])
  }

  /** The button's `disabled`: at the last snapshot with a state that cannot produce a new one. */
  predicate Disabled(s: SceneState)
  {
    s.currentGameIndex == |s.gameStates| - 1
    && !(s.control.state == Paused || s.control.state == Pending || s.control.state == Running)
  }

  /** The button is disabled exactly at the end of history in the Finished or an error state. */
  lemma DisabledIffTerminalAtEnd(s: SceneState)
    ensures Disabled(s) <==>
              s.currentGameIndex == |s.gameStates| - 1 && (s.control.state == Finished || s.control.state.Error?)
  {
  }
}
