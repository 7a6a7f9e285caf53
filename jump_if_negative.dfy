/** JumpIfNegative: jump when the carry is a negative number, otherwise fall through. */
module JumpIfNegativeInstruction {

  import opened Bytes
  import opened Game
  import JumpInstruction

  /** The jump condition: a number below zero (a character never jumps). */
  predicate IsNegative(v: ByteValue)
  {
    v.Num? && v.n < 0
  }

  /** jumpIfNegativeInstructionReducer: the carry is checked first; only a taken jump is
      bounds-checked, a fall-through always advances by one. */
  function Reduce(state: GameState, programStackAddress: nat): (r: Outcome)
    ensures !r.Done?
    ensures state.carry.None? ==> r == Failure(JumpIfNegativeCarryNull)
    ensures state.carry.Some? && IsNegative(state.carry.value) && programStackAddress >= |state.stack| ==>
              r == Failure(JumpIfNegativeStackOutOfBound(programStackAddress, |state.stack|))
    ensures r.Next? <==>
              state.carry.Some? && (!IsNegative(state.carry.value) || programStackAddress < |state.stack|)
    ensures r.Next? ==>
              r.state == state.(stackPointer := r.state.stackPointer)
              && r.state.stackPointer ==
                 (if IsNegative(state.carry.value) then programStackAddress else state.stackPointer + 1)
  {
    match state.carry
    case None => Failure(JumpIfNegativeCarryNull)
    case Some(carry) =>
      if carry.Num? && carry.n < 0 then
        if programStackAddress >= |state.stack| then
          Failure(JumpIfNegativeStackOutOfBound(programStackAddress, |state.stack|))
        else
          Next(state.(stackPointer := programStackAddress))
      else
        Next(state.(stackPointer := state.stackPointer + 1))
  }

  /** A taken JumpIfNegative behaves as Jump: it succeeds on the same targets with the same state. */
  lemma TakenBranchIsJump(state: GameState, programStackAddress: nat)
    requires state.carry.Some? && IsNegative(state.carry.value)
    ensures Reduce(state, programStackAddress).Next? <==> JumpInstruction.Reduce(state, programStackAddress).Next?
    ensures Reduce(state, programStackAddress).Next? ==>
              Reduce(state, programStackAddress) == JumpInstruction.Reduce(state, programStackAddress)
  {
  }
}
