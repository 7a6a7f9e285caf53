/** JumpIfZero: jump when the carry is the number 0, otherwise fall through. */
module JumpIfZeroInstruction {

  import opened Bytes
  import opened Game
  import JumpInstruction

  /** jumpIfZeroInstructionReducer: the carry is checked first; only a taken jump is
      bounds-checked, a fall-through always advances by one. */
  function Reduce(state: GameState, programStackAddress: nat): (r: Outcome)
    ensures !r.Done?
    ensures state.carry.None? ==> r == Failure(JumpIfZeroCarryNull)
    ensures state.carry == Some(Num(0)) && programStackAddress >= |state.stack| ==>
              r == Failure(JumpIfZeroStackOutOfBound(programStackAddress, |state.stack|))
    ensures r.Next? <==>
              state.carry.Some? && (state.carry != Some(Num(0)) || programStackAddress < |state.stack|)
    ensures r.Next? ==>
              r.state == state.(stackPointer := r.state.stackPointer)
              && r.state.stackPointer ==
                 (if state.carry == Some(Num(0)) then programStackAddress else state.stackPointer + 1)
  {
    match state.carry
    case None => Failure(JumpIfZeroCarryNull)
    case Some(carry) =>
      if carry == Num(0) then
        if programStackAddress >= |state.stack| then
          Failure(JumpIfZeroStackOutOfBound(programStackAddress, |state.stack|))
        else
          Next(state.(stackPointer := programStackAddress))
      else
        Next(state.(stackPointer := state.stackPointer + 1))
  }

  /** A taken JumpIfZero behaves as Jump: it succeeds on the same targets with the same state. */
  lemma TakenBranchIsJump(state: GameState, programStackAddress: nat)
    requires state.carry == Some(Num(0))
    ensures Reduce(state, programStackAddress).Next? <==> JumpInstruction.Reduce(state, programStackAddress).Next?
    ensures Reduce(state, programStackAddress).Next? ==>
              Reduce(state, programStackAddress) == JumpInstruction.Reduce(state, programStackAddress)
  {
  }
}
