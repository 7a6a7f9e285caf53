/** Return: check the carry against the level's expected output and emit it. */
module ReturnInstruction {

  import opened Bytes
  import opened Game

  /** `expected[i]` as JavaScript indexing gives it: absent past the end. */
  function ExpectedAt(expected: seq<ByteValue>, i: nat): (v: Option<ByteValue>)
    ensures v.Some? <==> i < |expected|
    ensures v.Some? ==> v.value == expected[i]
  {
    if i < |expected| then Some(expected[i]) else None
  }

  /** returnInstructionReducer; `expected` is the level's output, read at the length of the
      output produced so far. */
  function Reduce(state: GameState, expected: seq<ByteValue>): (r: Outcome)
    ensures !r.Done?
    ensures state.carry.None? ==> r == Failure(ReturnCarryNull)
    ensures r.Next? <==>
              state.carry.Some? && |state.output| < |expected| && expected[|state.output|] == state.carry.value
    ensures state.carry.Some? && !r.Next? ==>
              r == Failure(ReturnInvalidValue(state.carry.value, ExpectedAt(expected, |state.output|)))
    ensures r.Next? ==>
              r.state.output == state.output + [state.carry.value]
              && r.state.carry == None
              && r.state.stackPointer == state.stackPointer + 1
              && r.state == state.(carry := None, output := r.state.output, stackPointer := r.state.stackPointer)
  {
    match state.carry
    case None => Failure(ReturnCarryNull)
    case Some(carry) =>
      if ExpectedAt(expected, |state.output|) != Some(carry) then
        Failure(ReturnInvalidValue(carry, ExpectedAt(expected, |state.output|)))
      else
        Next(state.(carry := None, output := state.output + [carry], stackPointer := state.stackPointer + 1))
  }

  /** A successful Return keeps the output a prefix of the expected output. */
  lemma ReturnKeepsPrefix(state: GameState, expected: seq<ByteValue>)
    requires state.output <= expected
    requires Reduce(state, expected).Next?
    ensures Reduce(state, expected).state.output <= expected
    ensures |Reduce(state, expected).state.output| == |state.output| + 1
  {
    var n := |state.output|;
    var out := Reduce(state, expected).state.output;
    assert out == expected[..n] + [expected[n]];
    assert expected[..n] + [expected[n]] == expected[..n + 1];
  }

  /** Once the whole expected output is produced, no further Return can succeed. */
  lemma ReturnPastEndFails(state: GameState, expected: seq<ByteValue>)
    requires |state.output| >= |expected|
    ensures Reduce(state, expected).Failure?
  {
  }
}
