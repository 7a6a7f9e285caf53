/** Pause: switch to Paused. */
module PauseControl {

  import opened Scene

  /** pauseControlReducer: no guard on the current state. */
  function Reduce(c: ControlState): (r: ControlState)
    ensures r.state == Paused && r.speed == c.speed
  {
    c.(state := Paused)
  }

  /** The button's `disabled`. */
  predicate Disabled(state: ProgramState)
  {
    state != Running
  }

  /** Pausing twice is pausing once. */
  lemma PauseIdempotent(c: ControlState)
    ensures Reduce(Reduce(c)) == Reduce(c)
  {
  }

  /** The button is enabled only while Running, and then pressing it changes the state. */
  lemma EnabledIffRunning(c: ControlState)
    ensures !Disabled(c.state) <==> c.state == Running
    ensures !Disabled(c.state) ==> Reduce(c) != c
  {
  }
}
