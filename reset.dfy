/** Reset: drop every snapshot but the first and return to Pending. */
module ResetControl {

  import opened Scene

  /** resetControlReducer; the source asserts that the history has a first entry. */
  function Reduce(s: SceneState): (r: SceneState)
    requires |s.gameStates| > 0
    ensures r.gameStates == [s.gameStates[0]] && r.currentGameIndex == 0
    ensures r.currentGame == s.gameStates[0] && Valid(r)
    ensures r.control.state == Pending && r.control.speed == s.control.speed
    ensures r.level == s.level
  {
    var initialGameState := s.gameStates[0];
    s.(currentGame := initialGameState,
       currentGameIndex := 0,
       control := s.control.(speed := s.control.speed, state := Pending),
       gameStates := [initialGameState],
       level := s.level)
  }

  /** Resetting twice is resetting once. */
  lemma ResetIdempotent(s: SceneState)
    requires |s.gameStates| > 0
    ensures Reduce(Reduce(s)) == Reduce(s)
  {
  }
}
