/** Subtract: as written in the source, it adds the memory cell to the carry. */
module SubtractInstruction {

  import opened Bytes
  import opened Game
  import AddInstruction

  /** subtractInstructionReducer: the same guard chain as Add, and the same sum
      `memory[addr] + carry` (no negation). */
  function Reduce(state: GameState, programMemoryAddress: nat): (r: Outcome)
    ensures !r.Done?
    ensures programMemoryAddress >= |state.memory| ==>
              r == Failure(SubtractMemoryOutOfBound(programMemoryAddress, |state.memory|))
    ensures programMemoryAddress < |state.memory| && state.carry.None? ==>
              r == Failure(SubtractCarryNull)
    ensures programMemoryAddress < |state.memory| && state.carry.Some? && state.carry.value.Chr? ==>
              r == Failure(SubtractCarryString(state.carry.value.c))
    ensures programMemoryAddress < |state.memory| && state.carry.Some? && state.carry.value.Num?
            && state.memory[programMemoryAddress].None? ==>
              r == Failure(SubtractNull(programMemoryAddress))
    ensures programMemoryAddress < |state.memory| && state.carry.Some? && state.carry.value.Num?
            && state.memory[programMemoryAddress].Some? && state.memory[programMemoryAddress].value.Chr? ==>
              r == Failure(SubtractString(programMemoryAddress, state.memory[programMemoryAddress].value.c))
    ensures r.Next? <==>
              programMemoryAddress < |state.memory| && state.carry.Some? && state.carry.value.Num?
              && state.memory[programMemoryAddress].Some? && state.memory[programMemoryAddress].value.Num?
    ensures r.Next? ==>
              r.state.carry == Some(Num(state.memory[programMemoryAddress].value.n + state.carry.value.n))
              && r.state == state.(carry := r.state.carry, stackPointer := state.stackPointer + 1)
  {
    if programMemoryAddress > |state.memory| - 1 then
      Failure(SubtractMemoryOutOfBound(programMemoryAddress, |state.memory|))
    else
      match state.carry
      case None => Failure(SubtractCarryNull)
      case Some(Chr(c)) => Failure(SubtractCarryString(c))
      case Some(Num(carry)) =>
        match state.memory[programMemoryAddress]
        case None => Failure(SubtractNull(programMemoryAddress))
        case Some(Chr(c)) => Failure(SubtractString(programMemoryAddress, c))
        case Some(Num(current)) =>
          Next(state.(carry := Some(Num(current + carry)), stackPointer := state.stackPointer + 1))
  }

  /** Subtract and Add fail on exactly the same states and, when they succeed, give the
      same new state. */
  lemma SubtractBehavesAsAdd(state: GameState, programMemoryAddress: nat)
    ensures Reduce(state, programMemoryAddress).Next? <==> AddInstruction.Reduce(state, programMemoryAddress).Next?
    ensures Reduce(state, programMemoryAddress).Next? ==>
              Reduce(state, programMemoryAddress) == AddInstruction.Reduce(state, programMemoryAddress)
  {
  }
}
