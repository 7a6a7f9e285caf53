/** Add: add a numeric memory cell to the numeric carry. */
module AddInstruction {

  import opened Bytes
  import opened Game

  /** addInstructionReducer: out of bound, empty carry, character carry, null cell,
      character cell, in that order. */
  function Reduce(state: GameState, programMemoryAddress: nat): (r: Outcome)
    ensures !r.Done?
    ensures programMemoryAddress >= |state.memory| ==>
              r == Failure(AddMemoryOutOfBound(programMemoryAddress, |state.memory|))
    ensures programMemoryAddress < |state.memory| && state.carry.None? ==>
              r == Failure(AddCarryNull)
    ensures programMemoryAddress < |state.memory| && state.carry.Some? && state.carry.value.Chr? ==>
              r == Failure(AddCarryString(state.carry.value.c))
    ensures programMemoryAddress < |state.memory| && state.carry.Some? && state.carry.value.Num?
            && state.memory[programMemoryAddress].None? ==>
              r == Failure(AddNull(programMemoryAddress))
    ensures programMemoryAddress < |state.memory| && state.carry.Some? && state.carry.value.Num?
            && state.memory[programMemoryAddress].Some? && state.memory[programMemoryAddress].value.Chr? ==>
              r == Failure(AddString(programMemoryAddress, state.memory[programMemoryAddress].value.c))
    ensures r.Next? <==>
              programMemoryAddress < |state.memory| && state.carry.Some? && state.carry.value.Num?
              && state.memory[programMemoryAddress].Some? && state.memory[programMemoryAddress].value.Num?
    ensures r.Next? ==>
              r.state.carry == Some(Num(state.memory[programMemoryAddress].value.n + state.carry.value.n))
              && r.state == state.(carry := r.state.carry, stackPointer := state.stackPointer + 1)
  {
    if programMemoryAddress > |state.memory| - 1 then
      Failure(AddMemoryOutOfBound(programMemoryAddress, |state.memory|))
    else
      match state.carry
      case None => Failure(AddCarryNull)
      case Some(Chr(c)) => Failure(AddCarryString(c))
      case Some(Num(carry)) =>
        match state.memory[programMemoryAddress]
        case None => Failure(AddNull(programMemoryAddress))
        case Some(Chr(c)) => Failure(AddString(programMemoryAddress, c))
        case Some(Num(current)) =>
          Next(state.(carry := Some(Num(current + carry)), stackPointer := state.stackPointer + 1))
  }
}
