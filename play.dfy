/** Play: switch to Running (the scheduler then keeps stepping). */
module PlayControl {

  import opened Scene

  /** playControlReducer: no guard on the current state. */
  function Reduce(c: ControlState): (r: ControlState)
    ensures r.state == Running && r.speed == c.speed
  {
    c.(state := Running)
  }

  /** The button's `disabled`. */
  predicate Disabled(state: ProgramState)
  {
    state.Error? || state == Finished || state == Running
  }

  /** Playing twice is playing once. */
  lemma PlayIdempotent(c: ControlState)
    ensures Reduce(Reduce(c)) == Reduce(c)
  {
  }

  /** The button is enabled exactly from Pending and Paused, and there Play changes the state. */
  lemma EnabledIffPendingOrPaused(c: ControlState)
    ensures !Disabled(c.state) <==> c.state == Pending || c.state == Paused
    ensures !Disabled(c.state) ==> Reduce(c) != c
  {
  }
}
