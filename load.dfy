/** Load: take the last input value into the carry. */
module LoadInstruction {

  import opened Bytes
  import opened Game

  /** loadInstructionReducer. */
  function Reduce(state: GameState): (r: Outcome)
    ensures !r.Failure?
    ensures r.Done? <==> state.input == []
    ensures r.Next? ==>
              r.state.carry.Some?
              && r.state.input + [r.state.carry.value] == state.input
              && r.state.stackPointer == state.stackPointer + 1
              && r.state == state.(carry := r.state.carry, input := r.state.input,
                                   stackPointer := r.state.stackPointer)
  {
    if state.input == [] then Done
    else
      var last := |state.input| - 1;
      Next(state.(carry := Some(state.input[last]), input := state.input[..last],
                  stackPointer := state.stackPointer + 1))
  }

  /** On success the carry is the last input value and the input shrinks by exactly one. */
  lemma LoadPopsTail(state: GameState)
    requires state.input != []
    ensures Reduce(state).Next?
    ensures Reduce(state).state.carry == Some(state.input[|state.input| - 1])
    ensures |Reduce(state).state.input| == |state.input| - 1
    ensures Reduce(state).state.input == state.input[..|state.input| - 1]
  {
    var r := Reduce(state).state;
    assert r.input + [r.carry.value] == state.input;
    assert (r.input + [r.carry.value])[..|r.input|] == r.input;
  }
}
