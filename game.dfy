/** The machine state every instruction rule reads, and what a rule can answer. */
module Game {

  import opened Bytes
  import opened InstructionsCatalog

  /** One snapshot of the machine (GameState). */
  datatype GameState = GameState(
    carry: Option<ByteValue>,
    input: seq<ByteValue>,          // consumed from the tail
    memory: seq<Option<ByteValue>>, // fixed length, null cells are None
    output: seq<ByteValue>,         // grows at the tail
    stack: seq<Instruction>,        // the program
    stackPointer: nat,
    stepCounter: nat)

  /** The error classes the instruction rules and the engine raise, one tag each,
      with the fields their constructors take. */
  datatype GameError =
    | ReturnCarryNull
    | ReturnInvalidValue(carryValue: ByteValue, expectedValue: Option<ByteValue>)
    | CopyToMemoryOutOfBound(programMemoryAddress: nat, programMemoryLength: nat)
    | CopyToNullCarry(programMemoryAddress: nat)
    | CopyFromMemoryOutOfBound(programMemoryAddress: nat, programMemoryLength: nat)
    | CopyFromNull(programMemoryAddress: nat)
    | IncrementMemoryOutOfBound(programMemoryAddress: nat, programMemoryLength: nat)
    | IncrementNull(programMemoryAddress: nat)
    | IncrementString(programMemoryAddress: nat, currentValue: char)
    | DecrementMemoryOutOfBound(programMemoryAddress: nat, programMemoryLength: nat)
    | DecrementNull(programMemoryAddress: nat)
    | DecrementString(programMemoryAddress: nat, currentValue: char)
    | AddMemoryOutOfBound(programMemoryAddress: nat, programMemoryLength: nat)
    | AddCarryNull
    | AddCarryString(currentValue: char)
    | AddNull(programMemoryAddress: nat)
    | AddString(programMemoryAddress: nat, currentValue: char)
    | SubtractMemoryOutOfBound(programMemoryAddress: nat, programMemoryLength: nat)
    | SubtractCarryNull
    | SubtractCarryString(currentValue: char)
    | SubtractNull(programMemoryAddress: nat)
    | SubtractString(programMemoryAddress: nat, currentValue: char)
    | JumpStackOutOfBound(programStackAddress: nat, programStackLength: nat)
    | JumpIfZeroCarryNull
    | JumpIfZeroStackOutOfBound(programStackAddress: nat, programStackLength: nat)
    | JumpIfNegativeCarryNull
    | JumpIfNegativeStackOutOfBound(programStackAddress: nat, programStackLength: nat)
    | UnprocessedInput

  /** What an instruction rule returns: a new state, the Finished signal (Load only),
      or an error. */
  datatype Outcome = Next(state: GameState) | Done | Failure(error: GameError)
}
