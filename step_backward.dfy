/** Step backward: move the cursor to the previous snapshot, never re-executing anything. */
module StepBackwardControl {

  import opened Scene

  /** stepBackwardControlReducer. */
  function Reduce(s: SceneState): (r: SceneState)
    ensures r.gameStates == s.gameStates && r.control == s.control && r.level == s.level
    ensures s.currentGameIndex == 0 ==> r == s
    ensures 0 < s.currentGameIndex <= |s.gameStates| ==>
              r.currentGameIndex == s.currentGameIndex - 1
              && r.currentGame == s.gameStates[s.currentGameIndex - 1]
    ensures Valid(s) ==> Valid(r)
  {
    if s.currentGameIndex == 0 || s.currentGameIndex - 1 >= |s.gameStates| then s
    else
      var previousGameIndex := s.currentGameIndex - 1;
      s.(currentGame := s.gameStates[previousGameIndex], currentGameIndex := previousGameIndex)
  }

  /** The button's `disabled`. */
  predicate Disabled(s: SceneState)
  {
    s.currentGameIndex == 0
  }

  /** The button is disabled exactly when pressing it would change nothing. */
  lemma DisabledIffFixed(s: SceneState)
    requires Valid(s)
    ensures Disabled(s) <==> Reduce(s) == s
  {
    if !Disabled(s) {
      assert Reduce(s).currentGameIndex != s.currentGameIndex;
    }
  }
}
