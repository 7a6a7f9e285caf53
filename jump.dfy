/** Jump: move the stack pointer to a program address. */
module JumpInstruction {

  import opened Bytes
  import opened Game

  /** jumpInstructionReducer: the target must name an instruction of the program. */
  function Reduce(state: GameState, programStackAddress: nat): (r: Outcome)
    ensures !r.Done?
    ensures programStackAddress >= |state.stack| ==>
              r == Failure(JumpStackOutOfBound(programStackAddress, |state.stack|))
    ensures r.Next? <==> programStackAddress < |state.stack|
    ensures r.Next? ==>
              r.state.stackPointer == programStackAddress
              && r.state.stackPointer < |r.state.stack|
              && r.state == state.(stackPointer := r.state.stackPointer)
  {
    if programStackAddress >= |state.stack| then
      Failure(JumpStackOutOfBound(programStackAddress, |state.stack|))
    else
      Next(state.(stackPointer := programStackAddress))
  }
}
