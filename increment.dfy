/** Increment: add one to a numeric memory cell and copy the result into the carry. */
module IncrementInstruction {

  import opened Bytes
  import opened Game

  /** incrementInstructionReducer: out of bound, then null cell, then character cell. */
  function Reduce(state: GameState, programMemoryAddress: nat): (r: Outcome)
    ensures !r.Done?
    ensures programMemoryAddress >= |state.memory| ==>
              r == Failure(IncrementMemoryOutOfBound(programMemoryAddress, |state.memory|))
    ensures programMemoryAddress < |state.memory| && state.memory[programMemoryAddress].None? ==>
              r == Failure(IncrementNull(programMemoryAddress))
    ensures programMemoryAddress < |state.memory| && state.memory[programMemoryAddress].Some?
            && state.memory[programMemoryAddress].value.Chr? ==>
              r == Failure(IncrementString(programMemoryAddress, state.memory[programMemoryAddress].value.c))
    ensures r.Next? <==>
              programMemoryAddress < |state.memory| && state.memory[programMemoryAddress].Some?
              && state.memory[programMemoryAddress].value.Num?
    ensures r.Next? ==>
              var before := state.memory[programMemoryAddress].value.n;
              |r.state.memory| == |state.memory|
              && r.state.memory[programMemoryAddress] == Some(Num(before + 1))
              && (forall i :: 0 <= i < |state.memory| && i != programMemoryAddress ==>
                                r.state.memory[i] == state.memory[i])
              && r.state.carry == Some(Num(before + 1))
              && r.state == state.(carry := r.state.carry, memory := r.state.memory,
                                   stackPointer := state.stackPointer + 1)
  {
    if programMemoryAddress > |state.memory| - 1 then
      Failure(IncrementMemoryOutOfBound(programMemoryAddress, |state.memory|))
    else
      match state.memory[programMemoryAddress]
      case None => Failure(IncrementNull(programMemoryAddress))
      case Some(Chr(c)) => Failure(IncrementString(programMemoryAddress, c))
      case Some(Num(n)) =>
        var newValue := Num(n + 1);
        Next(state.(carry := Some(newValue),
                    memory := state.memory[programMemoryAddress := Some(newValue)],
                    stackPointer := state.stackPointer + 1))
  }
}
