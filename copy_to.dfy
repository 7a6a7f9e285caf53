/** CopyTo: store the carry into a memory cell. */
module CopyToInstruction {

  import opened Bytes
  import opened Game

  /** copyToInstructionReducer: the address is bounds-checked before the carry. */
  function Reduce(state: GameState, programMemoryAddress: nat): (r: Outcome)
    ensures !r.Done?
    ensures programMemoryAddress >= |state.memory| ==>
              r == Failure(CopyToMemoryOutOfBound(programMemoryAddress, |state.memory|))
    ensures programMemoryAddress < |state.memory| && state.carry.None? ==>
              r == Failure(CopyToNullCarry(programMemoryAddress))
    ensures r.Next? <==> programMemoryAddress < |state.memory| && state.carry.Some?
    ensures r.Next? ==>
              |r.state.memory| == |state.memory|
              && r.state.memory[programMemoryAddress] == state.carry
              && (forall i :: 0 <= i < |state.memory| && i != programMemoryAddress ==>
                                r.state.memory[i] == state.memory[i])
              && r.state == state.(memory := r.state.memory, stackPointer := state.stackPointer + 1)
  {
    if programMemoryAddress > |state.memory| - 1 then
      Failure(CopyToMemoryOutOfBound(programMemoryAddress, |state.memory|))
    else if state.carry.None? then
      Failure(CopyToNullCarry(programMemoryAddress))
    else
      Next(state.(stackPointer := state.stackPointer + 1,
                  memory := state.memory[programMemoryAddress := state.carry]))
  }
}
