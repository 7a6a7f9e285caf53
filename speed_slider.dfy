/** Speed slider: set the auto-play speed. */
module SpeedSliderControl {

  import opened Scene

  /** speedSliderControlReducer. */
  function Reduce(c: ControlState, speed: GameSpeed): (r: ControlState)
    ensures r.speed == speed && r.state == c.state
    ensures 1 <= r.speed <= 10
  {
    c.(speed := speed)
  }

  /** The last speed set wins. */
  lemma LastWriteWins(c: ControlState, first: GameSpeed, second: GameSpeed)
    ensures Reduce(Reduce(c, first), second) == Reduce(c, second)
  {
  }
}
