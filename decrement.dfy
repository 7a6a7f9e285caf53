/** Decrement: subtract one from a numeric memory cell and copy the result into the carry. */
module DecrementInstruction {

  import opened Bytes
  import opened Game
  import IncrementInstruction

  /** decrementInstructionReducer: out of bound, then null cell, then character cell. */
  function Reduce(state: GameState, programMemoryAddress: nat): (r: Outcome)
    ensures !r.Done?
    ensures programMemoryAddress >= |state.memory| ==>
              r == Failure(DecrementMemoryOutOfBound(programMemoryAddress, |state.memory|))
    ensures programMemoryAddress < |state.memory| && state.memory[programMemoryAddress].None? ==>
              r == Failure(DecrementNull(programMemoryAddress))
    ensures programMemoryAddress < |state.memory| && state.memory[programMemoryAddress].Some?
            && state.memory[programMemoryAddress].value.Chr? ==>
              r == Failure(DecrementString(programMemoryAddress, state.memory[programMemoryAddress].value.c))
    ensures r.Next? <==>
              programMemoryAddress < |state.memory| && state.memory[programMemoryAddress].Some?
              && state.memory[programMemoryAddress].value.Num?
    ensures r.Next? ==>
              var before := state.memory[programMemoryAddress].value.n;
              |r.state.memory| == |state.memory|
              && r.state.memory[programMemoryAddress] == Some(Num(before - 1))
              && (forall i :: 0 <= i < |state.memory| && i != programMemoryAddress ==>
                                r.state.memory[i] == state.memory[i])
              && r.state.carry == Some(Num(before - 1))
              && r.state == state.(carry := r.state.carry, memory := r.state.memory,
                                   stackPointer := state.stackPointer + 1)
  {
    if programMemoryAddress > |state.memory| - 1 then
      Failure(DecrementMemoryOutOfBound(programMemoryAddress, |state.memory|))
    else
      match state.memory[programMemoryAddress]
      case None => Failure(DecrementNull(programMemoryAddress))
      case Some(Chr(c)) => Failure(DecrementString(programMemoryAddress, c))
      case Some(Num(n)) =>
        var newValue := Num(n - 1);
        Next(state.(carry := Some(newValue),
                    memory := state.memory[programMemoryAddress := Some(newValue)],
                    stackPointer := state.stackPointer + 1))
  }

  /** Incrementing then decrementing the same numeric cell gives back the original memory. */
  lemma IncrementThenDecrementRestoresMemory(state: GameState, programMemoryAddress: nat)
    requires IncrementInstruction.Reduce(state, programMemoryAddress).Next?
    ensures var up := IncrementInstruction.Reduce(state, programMemoryAddress).state;
            var down := Reduce(up, programMemoryAddress);
            down.Next? && down.state.memory == state.memory
            && down.state.carry == state.memory[programMemoryAddress]
  {
    var up := IncrementInstruction.Reduce(state, programMemoryAddress).state;
    var down := Reduce(up, programMemoryAddress).state;
    assert |down.memory| == |state.memory|;
    forall i | 0 <= i < |state.memory| ensures down.memory[i] == state.memory[i] {
    }
  }
}
