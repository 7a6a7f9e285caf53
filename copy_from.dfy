/** CopyFrom: load a memory cell into the carry. */
module CopyFromInstruction {

  import opened Bytes
  import opened Game
  import CopyToInstruction

  /** copyFromInstructionReducer: no type check, so a character cell is copied too. */
  function Reduce(state: GameState, programMemoryAddress: nat): (r: Outcome)
    ensures !r.Done?
    ensures programMemoryAddress >= |state.memory| ==>
              r == Failure(CopyFromMemoryOutOfBound(programMemoryAddress, |state.memory|))
    ensures programMemoryAddress < |state.memory| && state.memory[programMemoryAddress].None? ==>
              r == Failure(CopyFromNull(programMemoryAddress))
    ensures r.Next? <==>
              programMemoryAddress < |state.memory| && state.memory[programMemoryAddress].Some?
    ensures r.Next? ==>
              r.state.carry == state.memory[programMemoryAddress]
              && r.state == state.(carry := r.state.carry, stackPointer := state.stackPointer + 1)
  {
    if programMemoryAddress > |state.memory| - 1 then
      Failure(CopyFromMemoryOutOfBound(programMemoryAddress, |state.memory|))
    else
      match state.memory[programMemoryAddress]
      case None => Failure(CopyFromNull(programMemoryAddress))
      case Some(v) => Next(state.(carry := Some(v), stackPointer := state.stackPointer + 1))
  }

  /** CopyTo then CopyFrom of the same cell succeeds, gives back the carry that was stored,
      and leaves the memory as CopyTo wrote it. */
  lemma CopyFromAfterCopyTo(state: GameState, programMemoryAddress: nat)
    requires CopyToInstruction.Reduce(state, programMemoryAddress).Next?
    ensures var stored := CopyToInstruction.Reduce(state, programMemoryAddress).state;
            var back := Reduce(stored, programMemoryAddress);
            back.Next? && back.state.carry == state.carry && back.state.memory == stored.memory
            && back.state.stackPointer == state.stackPointer + 2
  {
  }
}
