/** Levels: a puzzle's input, the expected output derived from it, and the instructions
    it enables. */
module Levels {

  import opened Bytes
  import opened InstructionsCatalog

  /** A level before initialisation; `inputGenerator` holds the values its generator yields. */
  datatype Level<!T> = Level(
    inputCount: nat,
    inputGenerator: seq<T>,
    inputToOutputMapFn: T -> seq<ByteValue>,
    instructions: InstructionSet,
    programMemorySize: nat)

  /** A level with its input materialised and its expected output computed. */
  datatype InitializedLevel<T> = InitializedLevel(
    input: seq<T>,
    output: seq<ByteValue>,
    instructions: InstructionSet,
    programMemorySize: nat)

  /** The values positiveNumberGenerator(take) can yield: `take` draws, each
      Math.round(100 * Math.random()), so between 0 and 100. */
  predicate IsPositiveNumberDraw(take: int, draws: seq<int>)
  {
    |draws| == take && forall k :: 0 <= k < |draws| ==> 0 <= draws[k] <= 100
  }

  /** positiveNumberGenerator(take): a counter runs from `take` down to 1 and each round yields
      the next random draw, so exactly `take` values come out. `random` stands for the
      successive rounded Math.random() results. */
  method PositiveNumberGenerator(take: int, random: seq<int>) returns (values: seq<int>)
    requires take > 0
    requires |random| >= take && forall k :: 0 <= k < |random| ==> 0 <= random[k] <= 100
    ensures |values| == take
    ensures values == random[..take]
    ensures IsPositiveNumberDraw(take, values)
  {
    values := [];
    var i := take;
    while i > 0
      invariant 0 <= i <= take
      invariant values == random[..take - i]
    {
      values := values + [random[take - i]];
      i := i - 1;
    }
  }

  /** positiveNumberSequenceGenerator(take, start): start, start + 1, ..., start + take - 1.
      `start` defaults to 0 in the source; here every caller passes it. */
  method PositiveNumberSequenceGenerator(take: int, start: int) returns (values: seq<int>)
    requires take > 0
    requires start >= 0
    ensures |values| == take
    ensures forall k :: 0 <= k < |values| ==> values[k] == start + k
  {
    values := [];
    var i := start;
    while i < start + take
      invariant start <= i <= start + take
      invariant |values| == i - start
      invariant forall k :: 0 <= k < |values| ==> values[k] == start + k
    {
      values := values + [i];
      i := i + 1;
    }
  }

  /** What an output mapping may return: several values, or one bare value. */
  datatype MapResult = Many(values: seq<ByteValue>) | Single(value: ByteValue)

  /** `isIterable(output) ? output : [output]`. */
  function Wrap(m: MapResult): (out: seq<ByteValue>)
    ensures m.Single? ==> out == [m.value]
    ensures m.Many? ==> out == m.values
  {
    match m
    case Many(values) => values
    case Single(v) => [v]
  }

  /** outputGenerator(mapFn), driven by the values `sent` through next() after the first call:
      it first yields [], then one wrapped mapping result per value sent. */
  method OutputGenerator<T>(mapFn: T -> MapResult, sent: seq<T>) returns (yielded: seq<seq<ByteValue>>)
    ensures |yielded| == |sent| + 1
    ensures yielded[0] == []
    ensures forall k :: 0 <= k < |sent| ==> yielded[k + 1] == Wrap(mapFn(sent[k]))
  {
    yielded := [[]];
    var k := 0;
    while k < |sent|
      invariant 0 <= k <= |sent|
      invariant |yielded| == k + 1 && yielded[0] == []
      invariant forall j :: 0 <= j < k ==> yielded[j + 1] == Wrap(mapFn(sent[j]))
    {
      var output := mapFn(sent[k]);
      yielded := yielded + [Wrap(output)];
      k := k + 1;
    }
  }

  /** Reference definition: the per-input outputs concatenated in input order. */
  function Flatten<T>(xs: seq<T>, f: T -> seq<ByteValue>): seq<ByteValue>
  {
    if xs == [] then [] else f(xs[0]) + Flatten(xs[1..], f)
  }

  /** `xs.reduce((c, e) => c.concat(f(e)), acc)`: a left fold. */
  function ReduceConcat<T>(acc: seq<ByteValue>, xs: seq<T>, f: T -> seq<ByteValue>): (r: seq<ByteValue>)
    ensures r == acc + Flatten(xs, f)
    decreases |xs|
  {
    if xs == [] then acc
    else
      assert acc + f(xs[0]) + Flatten(xs[1..], f) == acc + Flatten(xs, f);
      ReduceConcat(acc + f(xs[0]), xs[1..], f)
  }

  /** Array.prototype.reverse on a fresh array. */
  function Reverse<A>(s: seq<A>): (r: seq<A>)
    ensures |r| == |s|
    ensures forall k :: 0 <= k < |s| ==> r[k] == s[|s| - 1 - k]
  {
    if s == [] then [] else Reverse(s[1..]) + [s[0]]
  }

  /** initializeLevel: the input in generation order; the output is the concatenation of the
      per-input outputs, reversed as a whole. */
  function InitializeLevel<T>(level: Level<T>): (r: InitializedLevel<T>)
    ensures r.input == level.inputGenerator
    ensures r.instructions == level.instructions
    ensures r.programMemorySize == level.programMemorySize
    ensures var all := Flatten(level.inputGenerator, level.inputToOutputMapFn);
            |r.output| == |all|
            && forall k :: 0 <= k < |all| ==> r.output[k] == all[|all| - 1 - k]
  {
    var input := level.inputGenerator;
    InitializedLevel(
      input,
      Reverse(ReduceConcat([], input, level.inputToOutputMapFn)),
      level.instructions,
      level.programMemorySize)
  }

  /** When every input maps to exactly one value, the concatenation is that value per input. */
  lemma {:induction false} FlattenSingletons<T>(xs: seq<T>, f: T -> seq<ByteValue>)
    requires forall x :: |f(x)| == 1
    ensures |Flatten(xs, f)| == |xs|
    ensures forall k :: 0 <= k < |xs| ==> Flatten(xs, f)[k] == f(xs[k])[0]
  {
    if xs != [] {
      FlattenSingletons(xs[1..], f);
      assert Flatten(xs, f) == f(xs[0]) + Flatten(xs[1..], f);
      forall k | 0 <= k < |xs| ensures Flatten(xs, f)[k] == f(xs[k])[0] {
        if k > 0 {
          assert Flatten(xs, f)[k] == Flatten(xs[1..], f)[k - 1];
          assert xs[1..][k - 1] == xs[k];
        }
      }
    }
  }

  /** The instruction flags of a level: exactly the listed tags are enabled. */
  function Enabling(enabled: set<InstructionType>): (flags: InstructionSet)
    ensures forall t :: t in flags && (flags[t] <==> t in enabled)
  {
    AllInstructionTypesExact();
    map t: InstructionType | t in AllInstructionTypes :: t in enabled
  }

  /** The passThrough3 level: three random numbers, each echoed back. */
  function PassThrough3(draws: seq<int>): (level: Level<int>)
    requires IsPositiveNumberDraw(3, draws)
    ensures level.inputGenerator == draws && level.inputCount == 3 && level.programMemorySize == 0
    ensures forall t :: IsInstructionEnabled(Some(level.instructions), t) <==> t == LoadOp || t == ReturnOp
  {
    AllInstructionTypesExact();
    Level(3, draws, (input: int) => [Num(input)], Enabling({LoadOp, ReturnOp}), 0)
  }

  /** The double level: five random numbers, each to be returned doubled, one memory cell. */
  function Double(draws: seq<int>): (level: Level<int>)
    requires IsPositiveNumberDraw(5, draws)
    ensures level.inputGenerator == draws && level.inputCount == 5 && level.programMemorySize == 1
    ensures forall t :: IsInstructionEnabled(Some(level.instructions), t) <==>
                          t == CopyToOp || t == JumpOp || t == LoadOp || t == ReturnOp
  {
    AllInstructionTypesExact();
    Level(5, draws, (input: int) => [Num(input * 2)], Enabling({CopyToOp, JumpOp, LoadOp, ReturnOp}), 1)
  }

  /** passThrough3 expects its input back in reverse order. */
  lemma PassThrough3Output(draws: seq<int>)
    requires IsPositiveNumberDraw(3, draws)
    ensures var out := InitializeLevel(PassThrough3(draws)).output;
            |out| == |draws| && forall k :: 0 <= k < |draws| ==> out[k] == Num(draws[|draws| - 1 - k])
  {
    var level := PassThrough3(draws);
    var f := level.inputToOutputMapFn;
    FlattenSingletons(draws, f);
    var all := Flatten(draws, f);
    var out := InitializeLevel(level).output;
    forall k | 0 <= k < |draws| ensures out[k] == Num(draws[|draws| - 1 - k]) {
      var j := |draws| - 1 - k;
      assert out[k] == all[j];
      assert all[j] == f(draws[j])[0] == Num(draws[j]);
    }
  }

  /** double expects, at position k, twice the input k places from the end. */
  lemma DoubleOutput(draws: seq<int>)
    requires IsPositiveNumberDraw(5, draws)
    ensures var out := InitializeLevel(Double(draws)).output;
            |out| == |draws| && forall k :: 0 <= k < |draws| ==> out[k] == Num(2 * draws[|draws| - 1 - k])
  {
    var level := Double(draws);
    var f := level.inputToOutputMapFn;
    FlattenSingletons(draws, f);
    var all := Flatten(draws, f);
    var out := InitializeLevel(level).output;
    forall k | 0 <= k < |draws| ensures out[k] == Num(2 * draws[|draws| - 1 - k]) {
      var j := |draws| - 1 - k;
      assert out[k] == all[j];
      assert all[j] == f(draws[j])[0] == Num(draws[j] * 2);
    }
  }

  /** The initialised level seen as one over byte values (a number input is a byte). */
  function AsByteLevel(level: InitializedLevel<int>): (r: InitializedLevel<ByteValue>)
    ensures |r.input| == |level.input|
    ensures forall k :: 0 <= k < |level.input| ==> r.input[k] == Num(level.input[k])
    ensures r.output == level.output && r.instructions == level.instructions
    ensures r.programMemorySize == level.programMemorySize
  {
    InitializedLevel(
      seq(|level.input|, k requires 0 <= k < |level.input| => Num(level.input[k])),
      level.output, level.instructions, level.programMemorySize)
  }
}
